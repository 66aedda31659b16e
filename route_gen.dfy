/** src/world/route_gen.rs: the railway route, an append-only list of nodes
    with an id counter, extended one lowest-slope node at a time while its
    end is within the far-grid render distance of the player. */
module RouteGen {
  import opened Common
  import opened SlopeScan
  import opened WorldTerrain

  /** The distance between successive route nodes. */
  const NODE_LENGTH: real := 50.0
  /** The largest turn between successive nodes, in degrees. */
  const MAX_TURN_ANGLE: int := 5

  /** Vec::insert: `x` placed at index `i`, the tail shifted up by one. */
  function Insert<T>(s: seq<T>, i: nat, x: T): (r: seq<T>)
    requires i <= |s|
    ensures |r| == |s| + 1 && r[i] == x
    ensures r[..i] == s[..i] && r[i + 1..] == s[i..]
  {
    s[..i] + [x] + s[i..]
  }

  /** Inserting at the end appends. */
  lemma InsertAtEnd<T>(s: seq<T>, x: T)
    ensures Insert(s, |s|, x) == s + [x]
  {
  }

  /** find_next_path_node: of the candidates one node length away at angles
      `a - m, a - m + s, ...` up to `a + m`, the first of strictly least slope
      against the starting point's height, or the zero vector. A step of 0
      makes `step_by` panic. */
  method FindNextPathNode(land: Landscape, startingPoint: Vec3, startingAbsoluteAngleDeg: int, maxAngleDeg: int,
                          angleStepDeg: nat)
    returns (result: Vec3)
    requires angleStepDeg >= 1
    ensures result == ScanResult(land, Vec2(startingPoint.x, startingPoint.z), startingPoint.y, NODE_LENGTH,
                                 Angles(startingAbsoluteAngleDeg - maxAngleDeg, startingAbsoluteAngleDeg + maxAngleDeg, angleStepDeg))
  {
    result := LowestSlopeNode(land, Vec2(startingPoint.x, startingPoint.z), startingPoint.y, NODE_LENGTH,
                              startingAbsoluteAngleDeg - maxAngleDeg, startingAbsoluteAngleDeg + maxAngleDeg, angleStepDeg);
  }

  /** Extending the route turns by at most five degrees either way, in
      eleven one-degree candidates. */
  lemma TurnCandidates(angle: int)
    ensures var a := Angles(angle - MAX_TURN_ANGLE, angle + MAX_TURN_ANGLE, 1);
      |a| == 11 && forall k :: 0 <= k < 11 ==> a[k] == angle - 5 + k
  {
    AnglesShape(angle - MAX_TURN_ANGLE, angle + MAX_TURN_ANGLE, 1);
  }

  /** The node build_route_path appends after `last`, `before` being the
      node before it: the best candidate turning at most MAX_TURN_ANGLE
      degrees either way from the heading `heading` gives the last segment. */
  function NextNode(land: Landscape, last: Vec3, before: Vec3, heading: Vec2 -> int): Vec3 {
    var angle := heading(Vec2(last.x - before.x, last.z - before.z));
    ScanResult(land, Vec2(last.x, last.z), last.y, NODE_LENGTH, Angles(angle - MAX_TURN_ANGLE, angle + MAX_TURN_ANGLE, 1))
  }

  /** The Route resource. */
  class Route {
    var idCounter: nat
    var points: seq<Vec3>
    var pointsChanged: bool

    /** The counter names the next free index: one id per point. */
    ghost predicate Valid()
      reads this
    {
      |points| == idCounter
    }

    /** Route::default. */
    constructor()
      ensures Valid() && idCounter == 0 && points == [] && !pointsChanged
    {
      idCounter := 0;
      points := [];
      pointsChanged := false;
    }

    /** get_last_id: `id_counter - 1`; the unsigned subtraction panics on an
        empty route. On a valid route it names the last point. */
    function GetLastId(): (r: nat)
      reads this
      requires idCounter >= 1
      ensures Valid() ==> GetPoint(r) == Some(points[|points| - 1])
    {
      idCounter - 1
    }

    /** get_point: the point with index `id`, None past the end. */
    function GetPoint(id: nat): (r: Option<Vec3>)
      reads this
      ensures r.None? <==> id >= |points|
      ensures r.Some? ==> r.value == points[id]
    {
      if id >= |points| then None else Some(points[id])
    }

    /** init_line_points: the start (0, h(0, 0) + 1, 0) and the best node of
        a full turn around it are inserted at indices 0 and 1. */
    method InitLinePoints(land: Landscape)
      modifies this
      ensures var start := Vec3(0.0, land.height(0.0, 0.0) + 1.0, 0.0);
        points == [start, ScanResult(land, Vec2(0.0, 0.0), start.y, NODE_LENGTH, Angles(-180, 180, 5))] + old(points)
      ensures idCounter == 2 && pointsChanged
      ensures old(points) == [] ==> Valid()
    {
      var startingPoint2d := Vec2(0.0, 0.0);
      var startingHeight := land.height(startingPoint2d.x, startingPoint2d.y);
      var startingPoint := Vec3(startingPoint2d.x, startingHeight + 1.0, startingPoint2d.y);
      var nextPoint := FindNextPathNode(land, startingPoint, 0, 180, 5);
      var withStart := Insert(points, 0, startingPoint);
      assert withStart == [startingPoint] + points;
      var withNext := Insert(withStart, 1, nextPoint);
      assert withNext == [startingPoint, nextPoint] + points;
      points, idCounter, pointsChanged := withNext, 2, true;
    }

    /** update_polyline_points: when the points changed, the line strip is
        redrawn from a copy of them (returned here) and the flag cleared;
        otherwise nothing happens. */
    method UpdatePolylinePoints() returns (drawn: Option<seq<Vec3>>)
      modifies this
      ensures drawn == (if old(pointsChanged) then Some(old(points)) else None)
      ensures !pointsChanged
      ensures points == old(points) && idCounter == old(idCounter)
    {
      if !pointsChanged {
        drawn := None;
        return;
      }
      drawn := Some(points);
      pointsChanged := false;
    }

    /** build_route_path: while the route's end is within the far render
        distance of the player's chunk, the best node turning at most five
        degrees from the last heading is inserted at index `id_counter`.
        `heading(v)` is the opaque `acos`-based angle of the last segment in
        degrees. The source unwraps the last point, and the one before it once
        the end is in range, and inserts at `id_counter`. */
    method BuildRoutePath(land: Landscape, player: Vec2, heading: Vec2 -> int)
      requires 1 <= idCounter <= |points|
      requires IsWithinFarRenderDistance(Vec2(points[idCounter - 1].x, points[idCounter - 1].z), GetFarChunkPosition(player))
        ==> idCounter >= 2
      modifies this
      ensures var last := old(points)[old(idCounter) - 1];
        if !IsWithinFarRenderDistance(Vec2(last.x, last.z), GetFarChunkPosition(player)) then
          points == old(points) && idCounter == old(idCounter) && pointsChanged == old(pointsChanged)
        else
          && points == Insert(old(points), old(idCounter), NextNode(land, last, old(points)[old(idCounter) - 2], heading))
          && idCounter == old(idCounter) + 1 && pointsChanged
      ensures old(Valid()) ==> Valid() && points[..|old(points)|] == old(points)
    {
      var currentNodeId := idCounter;
      var playerChunkPos := GetFarChunkPosition(player);
      var lastRoutePoint := GetPoint(currentNodeId - 1).value;
      assert lastRoutePoint == points[idCounter - 1];
      if !IsWithinFarRenderDistance(Vec2(lastRoutePoint.x, lastRoutePoint.z), playerChunkPos) {
        return;
      }
      var routePointBeforeLast := GetPoint(currentNodeId - 2).value;
      assert routePointBeforeLast == points[idCounter - 2];
      var routeVector := Vec2(lastRoutePoint.x - routePointBeforeLast.x, lastRoutePoint.z - routePointBeforeLast.z);
      var angle := heading(routeVector);
      var nextRoutePoint := FindNextPathNode(land, lastRoutePoint, angle, MAX_TURN_ANGLE, 1);
      assert nextRoutePoint == NextNode(land, lastRoutePoint, routePointBeforeLast, heading);
      var extended := Insert(points, currentNodeId, nextRoutePoint);
      points, idCounter, pointsChanged := extended, idCounter + 1, true;
    }
  }
}
