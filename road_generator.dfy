/** src/road_generator.rs: the unfinished road generator. Only its initial
    scan and its render-distance test do anything; the road is a polyline
    that starts with two points. */
module RoadGenerator {
  import opened Common
  import opened ChunkMath
  import opened SlopeScan
  import TerrainGenerator

  /** The length of each road node. */
  const NODE_LENGTH: real := 20.0

  /** is_within_render_distance: `pos` lies in the closed box spanned by
      `(c - r) * size` and `(c + r) * size` on each axis. */
  function IsWithinRenderDistance(pos: Vec2, renderDistanceChunks: real, playerChunkPos: Vec2, chunkSize: real): (r: bool)
    ensures r <==>
      && (playerChunkPos.x - renderDistanceChunks) * chunkSize <= pos.x <= (playerChunkPos.x + renderDistanceChunks) * chunkSize
      && (playerChunkPos.y - renderDistanceChunks) * chunkSize <= pos.y <= (playerChunkPos.y + renderDistanceChunks) * chunkSize
  {
    var minX := (playerChunkPos.x - renderDistanceChunks) * chunkSize;
    var maxX := (playerChunkPos.x + renderDistanceChunks) * chunkSize;
    var minY := (playerChunkPos.y - renderDistanceChunks) * chunkSize;
    var maxY := (playerChunkPos.y + renderDistanceChunks) * chunkSize;
    if pos.x > maxX || pos.x < minX then false
    else if pos.y > maxY || pos.y < minY then false
    else true
  }

  /** With the terrain generator's chunk size and render distance (as the
      road generator calls it), a point within render distance lies in a
      chunk of the closed window the terrain retains. */
  lemma WithinDistanceIsRetained(pos: Vec2, pc: ChunkPos)
    requires IsWithinRenderDistance(pos, TerrainGenerator.RENDER_DISTANCE_CHUNKS as real, Vec2(pc.x as real, pc.y as real),
                                     TerrainGenerator.TERRAIN_CHUNK_SIZE)
    ensures InClosedWindow(TerrainGenerator.ChunkOf(pos), pc, TerrainGenerator.RENDER_DISTANCE_CHUNKS)
  {
    var r := TerrainGenerator.RENDER_DISTANCE_CHUNKS;
    assert (pc.x as real - r as real) * 256.0 == ((pc.x - r) as real) * 256.0;
    assert (pc.x as real + r as real) * 256.0 == ((pc.x + r) as real) * 256.0;
    assert (pc.y as real - r as real) * 256.0 == ((pc.y - r) as real) * 256.0;
    assert (pc.y as real + r as real) * 256.0 == ((pc.y + r) as real) * 256.0;
    BoxPointInClosedWindow(pos.x, pc.x, r, 256.0);
    BoxPointInClosedWindow(pos.y, pc.y, r, 256.0);
  }

  /** The Road resource. */
  class Road {
    var polylinePoints: seq<Vec3>

    /** Road::default. */
    constructor()
      ensures polylinePoints == []
    {
      polylinePoints := [];
    }

    /** init_line_points: pushes the start (0, h(0, 0) + 1, 0) and then the
        best node of a full turn of 5-degree steps, 20 m away, whose slopes
        are measured against `h(0, 0)` itself rather than the raised start. */
    method InitLinePoints(land: Landscape)
      modifies this
      ensures var startingHeight := land.height(0.0, 0.0);
        polylinePoints == old(polylinePoints) + [Vec3(0.0, startingHeight + 1.0, 0.0),
          ScanResult(land, Vec2(0.0, 0.0), startingHeight, NODE_LENGTH, Angles(-180, 180, 5))]
    {
      var startingPoint2d := Vec2(0.0, 0.0);
      var startingHeight := land.height(startingPoint2d.x, startingPoint2d.y);
      var startingPoint := Vec3(startingPoint2d.x, startingHeight + 1.0, startingPoint2d.y);
      var result := LowestSlopeNode(land, startingPoint2d, startingHeight, NODE_LENGTH, -180, 180, 5);
      polylinePoints := polylinePoints + [startingPoint] + [result];
    }
  }
}
