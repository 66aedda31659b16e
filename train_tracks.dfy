/** src/world/train_tracks.rs: track segments sampled by a parameter t, the
    track component that looks segments up by `floor(t)`, and the placement
    bookkeeping that turns route nodes into segments one per run and places
    them one per run. */
module TrainTracks {
  import opened Common
  import opened Argmin
  import RouteGen

  /** A path sample of bevy_extrude_mesh: position, rotation and its curve
      parameter t. */
  datatype OrientedPoint = OrientedPoint(position: Vec3, rotation: Quat, t: real)

  /** A placed piece of track: its id, its samples relative to its start, and
      the world position of that start. */
  datatype TrackSegment = TrackSegment(id: nat, points: seq<OrientedPoint>, worldTranslation: Vec3)

  /** Samples farther than this from the query parameter are never closest. */
  const CLOSEST_THRESHOLD: real := 1.0

  /** The distances |t - p.t| of the samples, in order. */
  function TDiffs(points: seq<OrientedPoint>, t: real): (d: seq<real>)
    ensures |d| == |points|
    ensures forall i :: 0 <= i < |points| ==> d[i] == Abs(t - points[i].t)
  {
    seq(|points|, i requires 0 <= i < |points| => Abs(t - points[i].t))
  }

  /** Some sample lies within the threshold of `t`; otherwise the source's
      `closest_point.unwrap()` panics. */
  ghost predicate HasCloseSample(points: seq<OrientedPoint>, t: real) {
    exists i :: 0 <= i < |points| && Abs(t - points[i].t) < CLOSEST_THRESHOLD
  }

  /** The index get_closest_point_at_t settles on: the first sample of least
      distance to `t`, which is closer than the threshold. */
  function ClosestIndex(points: seq<OrientedPoint>, t: real): (k: nat)
    requires HasCloseSample(points, t)
    ensures IsFirstMin(TDiffs(points, t), CLOSEST_THRESHOLD, k)
    ensures FirstMinBelow(TDiffs(points, t), CLOSEST_THRESHOLD) == Some(k)
  {
    var d := TDiffs(points, t);
    FirstMinBelowSpec(d, CLOSEST_THRESHOLD);
    var i :| 0 <= i < |points| && Abs(t - points[i].t) < CLOSEST_THRESHOLD;
    assert d[i] < CLOSEST_THRESHOLD;
    FirstMinBelow(d, CLOSEST_THRESHOLD).value
  }

  /** TrackSegment::get_closest_point_at_t. */
  method GetClosestPointAtT(seg: TrackSegment, t: real) returns (closestIndex: nat, closestPoint: OrientedPoint)
    requires HasCloseSample(seg.points, t)
    ensures closestIndex < |seg.points| && closestIndex == ClosestIndex(seg.points, t)
    ensures closestPoint == seg.points[closestIndex]
  {
    ghost var diffs := TDiffs(seg.points, t);
    var found: Option<OrientedPoint> := None;
    closestIndex := 0;
    var smallestDiff := CLOSEST_THRESHOLD;
    for i := 0 to |seg.points|
      invariant FirstMinBelow(diffs[..i], CLOSEST_THRESHOLD) == (if found.Some? then Some(closestIndex) else None)
      invariant found.Some? ==> closestIndex < i && found.value == seg.points[closestIndex] && smallestDiff == diffs[closestIndex]
      invariant found.None? ==> smallestDiff == CLOSEST_THRESHOLD
    {
      var diff := Abs(t - seg.points[i].t);
      assert diffs[..i + 1][..i] == diffs[..i];
      if diff < smallestDiff {
        closestIndex := i;
        found := Some(seg.points[i]);
        smallestDiff := diff;
      }
    }
    assert diffs[..|seg.points|] == diffs;
    ghost var k := ClosestIndex(seg.points, t);
    assert found.Some?;
    closestPoint := found.value;
  }

  /** The first of the two samples interpolated between: the one before the
      closest sample when that lies ahead of `t`, else the closest itself. */
  function SpanStart(points: seq<OrientedPoint>, t: real, ci: nat): int
    requires ci < |points|
  {
    if points[ci].t > t then ci - 1 else ci
  }

  ghost function Span(points: seq<OrientedPoint>, t: real): int
    requires HasCloseSample(points, t)
  {
    SpanStart(points, t, ClosestIndex(points, t))
  }

  /** Both samples of the span exist; otherwise the source indexes out of
      bounds (`closest_index - 1` or `closest_index + 1`). */
  ghost predicate SpanInRange(points: seq<OrientedPoint>, t: real) {
    HasCloseSample(points, t) && 0 <= Span(points, t) && Span(points, t) + 1 < |points|
  }

  /** The lerp factor `t * (n - 1) - s` of the span starting at sample `s`. */
  function LerpFactor(n: nat, t: real, s: int): real {
    t * (n as real - 1.0) - s as real
  }

  /** The pose between samples `s` and `s + 1` at lerp factor `f`;
      `quatLerp` is the opaque Quat::lerp. */
  function SpanPose(points: seq<OrientedPoint>, s: nat, f: real, quatLerp: (Quat, Quat, real) -> Quat): (Vec3, Quat)
    requires s + 1 < |points|
  {
    (Lerp(points[s].position, points[s + 1].position, f), quatLerp(points[s].rotation, points[s + 1].rotation, f))
  }

  /** The segment-local pose at `t`. */
  ghost function LocalPose(points: seq<OrientedPoint>, t: real, quatLerp: (Quat, Quat, real) -> Quat): (Vec3, Quat)
    requires SpanInRange(points, t)
  {
    var s := Span(points, t);
    SpanPose(points, s, LerpFactor(|points|, t, s), quatLerp)
  }

  /** TrackSegment::get_interpolated_position_at_t: in both branches the pose
      interpolates the span's two samples by `t * (n - 1) - s`. */
  method SegmentPositionAtT(seg: TrackSegment, t: real, quatLerp: (Quat, Quat, real) -> Quat)
    returns (position: Vec3, rotation: Quat)
    requires SpanInRange(seg.points, t)
    ensures (position, rotation) == LocalPose(seg.points, t, quatLerp)
  {
    var closestIndex, closestPoint := GetClosestPointAtT(seg, t);
    var n := |seg.points|;
    ghost var s := Span(seg.points, t);
    assert s == SpanStart(seg.points, t, closestIndex);
    assert LocalPose(seg.points, t, quatLerp) == SpanPose(seg.points, s, LerpFactor(n, t, s), quatLerp);
    var scaled := t * (n as real - 1.0);
    assert LerpFactor(n, t, s) == scaled - s as real;
    if closestPoint.t > t {
      assert s == closestIndex - 1;
      var prev := seg.points[closestIndex - 1];
      var lerpFactor := scaled - (closestIndex as real - 1.0);
      assert lerpFactor == LerpFactor(n, t, s);
      position := Lerp(prev.position, closestPoint.position, lerpFactor);
      rotation := quatLerp(prev.rotation, closestPoint.rotation, lerpFactor);
      assert (position, rotation) == SpanPose(seg.points, s, lerpFactor, quatLerp);
    } else {
      assert s == closestIndex;
      var next := seg.points[closestIndex + 1];
      var lerpFactor := scaled - closestIndex as real;
      assert lerpFactor == LerpFactor(n, t, s);
      position := Lerp(closestPoint.position, next.position, lerpFactor);
      rotation := quatLerp(closestPoint.rotation, next.rotation, lerpFactor);
      assert (position, rotation) == SpanPose(seg.points, s, lerpFactor, quatLerp);
    }
  }

  /** TrackSegment::get_slope_angle_at_t: the slope of the span's two samples;
      `slopeAngle(a, b)` is the opaque `asin((b.y - a.y) / |b - a|)`. */
  method SegmentSlopeAngleAtT(seg: TrackSegment, t: real, slopeAngle: (Vec3, Vec3) -> real) returns (angle: real)
    requires SpanInRange(seg.points, t)
    ensures var s := Span(seg.points, t); angle == slopeAngle(seg.points[s].position, seg.points[s + 1].position)
  {
    var closestIndex, closestPoint := GetClosestPointAtT(seg, t);
    if closestPoint.t > t {
      var prev := seg.points[closestIndex - 1];
      angle := slopeAngle(prev.position, closestPoint.position);
    } else {
      var next := seg.points[closestIndex + 1];
      angle := slopeAngle(closestPoint.position, next.position);
    }
  }

  /** Samples spread evenly over the curve: sample `k` of `n` at `t = k / (n - 1)`. */
  ghost predicate UniformSamples(points: seq<OrientedPoint>) {
    |points| >= 2 && forall k :: 0 <= k < |points| ==> points[k].t == k as real / (|points| as real - 1.0)
  }

  lemma ScaledDiff(t: real, k: int, n: real)
    requires n > 0.0
    ensures Abs(t - k as real / n) * n == Abs(t * n - k as real)
  {
    assert (t - k as real / n) * n == t * n - k as real;
  }

  lemma MulMono(a: real, b: real, n: real)
    requires n > 0.0 && a >= b
    ensures a * n >= b * n
    ensures a > b ==> a * n > b * n
  {
  }

  /** Comparing distances to samples `i / n` and `j / n` compares the scaled
      distances of `t * n` to `i` and `j`. */
  lemma ScaledCompare(t: real, i: int, j: int, n: real)
    requires n > 0.0 && Abs(t - i as real / n) >= Abs(t - j as real / n)
    ensures Abs(t * n - i as real) >= Abs(t * n - j as real)
    ensures Abs(t - i as real / n) > Abs(t - j as real / n) ==> Abs(t * n - i as real) > Abs(t * n - j as real)
  {
    ScaledDiff(t, i, n);
    ScaledDiff(t, j, n);
    MulMono(Abs(t - i as real / n), Abs(t - j as real / n), n);
  }

  lemma ScaledAhead(t: real, k: int, n: real)
    requires n > 0.0
    ensures k as real / n > t <==> k as real > t * n
  {
    if k as real / n > t {
      MulMono(k as real / n, t, n);
      assert (k as real / n) * n == k as real;
    } else {
      MulMono(t, k as real / n, n);
      assert (k as real / n) * n == k as real;
    }
  }

  lemma PrevSpanFactor(u: real, ci: int)
    requires ci as real > u && Abs(u - (ci - 1) as real) > Abs(u - ci as real)
    ensures 0.0 <= u - (ci - 1) as real <= 1.0
  {
  }

  lemma NextSpanFactor(u: real, ci: int)
    requires ci as real <= u && Abs(u - (ci + 1) as real) >= Abs(u - ci as real)
    ensures 0.0 <= u - ci as real <= 1.0
  {
  }

  /** The arithmetic of the span choice when the closest sample lies ahead
      of `t`: `t` measured in sample steps is within one step after the
      sample before it. */
  lemma AheadSpanFactor(t: real, m: nat, ci: int)
    requires m >= 2
    requires ci as real / (m as real - 1.0) > t
    requires Abs(t - (ci - 1) as real / (m as real - 1.0)) > Abs(t - ci as real / (m as real - 1.0))
    ensures 0.0 <= LerpFactor(m, t, ci - 1) <= 1.0
  {
    var n := m as real - 1.0;
    ScaledAhead(t, ci, n);
    ScaledCompare(t, ci - 1, ci, n);
    PrevSpanFactor(t * n, ci);
  }

  /** The same when the closest sample is at or behind `t`. */
  lemma BehindSpanFactor(t: real, m: nat, ci: int)
    requires m >= 2
    requires !(ci as real / (m as real - 1.0) > t)
    requires Abs(t - (ci + 1) as real / (m as real - 1.0)) >= Abs(t - ci as real / (m as real - 1.0))
    ensures 0.0 <= LerpFactor(m, t, ci) <= 1.0
  {
    var n := m as real - 1.0;
    ScaledAhead(t, ci, n);
    ScaledCompare(t, ci + 1, ci, n);
    NextSpanFactor(t * n, ci);
  }

  /** On evenly spread samples the lerp factor of the chosen span is in
      [0, 1]: `t` lies between the span's two samples. */
  lemma UniformFactorInUnit(points: seq<OrientedPoint>, t: real)
    requires UniformSamples(points) && SpanInRange(points, t)
    ensures 0.0 <= LerpFactor(|points|, t, Span(points, t)) <= 1.0
  {
    var n := |points| as real - 1.0;
    var ci := ClosestIndex(points, t);
    var d := TDiffs(points, t);
    var s := Span(points, t);
    var ahead := points[ci].t > t;
    assert s == if ahead then ci - 1 else ci;
    assert points[ci].t == ci as real / n;
    if ahead {
      assert d[ci - 1] > d[ci];
      assert points[ci - 1].t == (ci - 1) as real / n;
      AheadSpanFactor(t, |points|, ci);
    } else {
      assert d[ci + 1] >= d[ci];
      assert points[ci + 1].t == (ci + 1) as real / n;
      BehindSpanFactor(t, |points|, ci);
    }
  }

  /** Track lookups are well defined at `t`: `t` is not negative (the
      source asserts it) and the segment keyed `floor(t)`, if any, can
      interpolate at `t - floor(t)`. */
  ghost predicate QueryOk(segments: map<nat, TrackSegment>, t: real) {
    t >= 0.0 && (t.Floor in segments ==> SpanInRange(segments[t.Floor].points, t - t.Floor as real))
  }

  /** The pose the track reports at `t`: the segment-local pose shifted by
      the segment's world translation, or None when no segment is keyed
      `floor(t)`. */
  ghost function PoseAt(segments: map<nat, TrackSegment>, t: real, quatLerp: (Quat, Quat, real) -> Quat): Option<(Vec3, Quat)>
    requires QueryOk(segments, t)
  {
    if t.Floor in segments then
      var seg := segments[t.Floor];
      var local := LocalPose(seg.points, t - t.Floor as real, quatLerp);
      Some((local.0.Plus(seg.worldTranslation), local.1))
    else None
  }

  /** The slope angle the track reports at `t`, or None. */
  ghost function SlopeAt(segments: map<nat, TrackSegment>, t: real, slopeAngle: (Vec3, Vec3) -> real): Option<real>
    requires QueryOk(segments, t)
  {
    if t.Floor in segments then
      var seg := segments[t.Floor];
      var s := Span(seg.points, t - t.Floor as real);
      Some(slopeAngle(seg.points[s].position, seg.points[s + 1].position))
    else None
  }

  /** The Track component. */
  class Track {
    var segments: map<nat, TrackSegment>

    /** Track::default. */
    constructor()
      ensures segments == map[]
    {
      segments := map[];
    }

    /** get_segment_at_t: the segment keyed `floor(t)`; `t` must not be negative. */
    function GetSegmentAtT(t: real): (r: Option<TrackSegment>)
      reads this
      requires t >= 0.0
      ensures r.None? <==> t.Floor !in segments
      ensures r.Some? ==> r.value == segments[t.Floor]
    {
      var lowerBound: nat := t.Floor;
      if lowerBound in segments then Some(segments[lowerBound]) else None
    }

    /** Track::get_interpolated_position_at_t. */
    method GetInterpolatedPositionAtT(t: real, quatLerp: (Quat, Quat, real) -> Quat) returns (r: Option<(Vec3, Quat)>)
      requires QueryOk(segments, t)
      ensures r == PoseAt(segments, t, quatLerp)
      ensures r.None? <==> t.Floor !in segments
    {
      var segment := GetSegmentAtT(t);
      if segment.Some? {
        var seg := segment.value;
        var lowerBound: nat := t.Floor;
        var position, rotation := SegmentPositionAtT(seg, t - lowerBound as real, quatLerp);
        position := position.Plus(seg.worldTranslation);
        r := Some((position, rotation));
      } else {
        r := None;
      }
    }

    /** Track::get_slope_angle_at_t. */
    method GetSlopeAngleAtT(t: real, slopeAngle: (Vec3, Vec3) -> real) returns (r: Option<real>)
      requires QueryOk(segments, t)
      ensures r == SlopeAt(segments, t, slopeAngle)
      ensures r.None? <==> t.Floor !in segments
    {
      var segment := GetSegmentAtT(t);
      var lowerBound: nat := t.Floor;
      if segment.Some? {
        var angle := SegmentSlopeAngleAtT(segment.value, t - lowerBound as real, slopeAngle);
        r := Some(angle);
      } else {
        r := None;
      }
    }
  }

  /** Segment ids run 1, 2, 3, ... in list order. */
  ghost predicate ConsecutiveIds(segments: seq<TrackSegment>) {
    forall k :: 0 <= k < |segments| ==> segments[k].id == k + 1
  }

  /** `iter().find(|seg| seg.id == id)`: the first segment with that id. */
  function FindSegment(segments: seq<TrackSegment>, id: nat): (r: Option<TrackSegment>)
    ensures r.Some? ==> r.value in segments && r.value.id == id
    ensures r.None? <==> forall k :: 0 <= k < |segments| ==> segments[k].id != id
  {
    if segments == [] then None
    else if segments[0].id == id then Some(segments[0])
    else
      var rest := FindSegment(segments[1..], id);
      assert forall k :: 1 <= k < |segments| ==> segments[k] == segments[1..][k - 1];
      rest
  }

  /** With consecutive ids, segment `id` is found at index `id - 1`. */
  lemma {:induction false} FindConsecutive(segments: seq<TrackSegment>, id: nat)
    requires ConsecutiveIds(segments) && 1 <= id <= |segments|
    ensures FindSegment(segments, id) == Some(segments[id - 1])
  {
    if id > 1 {
      var rest := segments[1..];
      assert segments[0].id == 1;
      assert forall k :: 0 <= k < |rest| ==> rest[k].id == k + 2;
      FindShifted(rest, id, 2);
    }
  }

  lemma {:induction false} FindShifted(segments: seq<TrackSegment>, id: nat, first: nat)
    requires forall k :: 0 <= k < |segments| ==> segments[k].id == k + first
    requires first <= id < first + |segments|
    ensures FindSegment(segments, id) == Some(segments[id - first])
    decreases |segments|
  {
    if id > first {
      var rest := segments[1..];
      assert forall k :: 0 <= k < |rest| ==> rest[k].id == k + (first + 1);
      FindShifted(rest, id, first + 1);
    }
  }

  /** The id → segment map update_track_entity builds: each segment inserted
      under its id in list order, so a later duplicate wins. */
  function SegmentsById(segments: seq<TrackSegment>): map<nat, TrackSegment>
    decreases |segments|
  {
    if segments == [] then map[]
    else
      var n := |segments| - 1;
      SegmentsById(segments[..n])[segments[n].id := segments[n]]
  }

  /** Exactly the ids of the segments are keys, each mapped to a segment of
      that id taken from the list. */
  lemma {:induction false} SegmentsByIdSpec(segments: seq<TrackSegment>)
    ensures forall id :: id in SegmentsById(segments) <==> exists k :: 0 <= k < |segments| && segments[k].id == id
    ensures forall id | id in SegmentsById(segments) :: SegmentsById(segments)[id].id == id && SegmentsById(segments)[id] in segments
    decreases |segments|
  {
    if segments != [] {
      var n := |segments| - 1;
      SegmentsByIdSpec(segments[..n]);
      forall id | exists k :: 0 <= k < |segments| && segments[k].id == id
        ensures id in SegmentsById(segments)
      {
        var k :| 0 <= k < |segments| && segments[k].id == id;
        if k < n {
          assert segments[..n][k].id == id;
        }
      }
      forall id | id in SegmentsById(segments)
        ensures exists k :: 0 <= k < |segments| && segments[k].id == id
      {
        if id != segments[n].id {
          assert id in SegmentsById(segments[..n]);
          var k :| 0 <= k < n && segments[..n][k].id == id;
          assert segments[k].id == id;
        }
      }
      assert forall s | s in segments[..n] :: s in segments;
    }
  }

  /** Segment number `k` of the list, counting from 1. */
  function NumberedSegment(segments: seq<TrackSegment>, k: nat): TrackSegment
    requires 1 <= k <= |segments|
  {
    segments[k - 1]
  }

  /** The segments keyed by their position in the list, counting from 1. */
  function Numbered(segments: seq<TrackSegment>): map<nat, TrackSegment> {
    map k: nat | 1 <= k <= |segments| :: NumberedSegment(segments, k)
  }

  /** Numbering one more segment adds exactly its key. */
  lemma NumberedStep(segments: seq<TrackSegment>)
    requires |segments| >= 1
    ensures Numbered(segments) == Numbered(segments[..|segments| - 1])[|segments| := segments[|segments| - 1]]
  {
    var n := |segments| - 1;
    var prefix := segments[..n];
    var m0 := Numbered(prefix);
    var m1 := Numbered(segments);
    assert forall k: nat :: k in m1 <==> k in m0 || k == n + 1;
    assert forall k: nat | 1 <= k <= n :: m0[k] == NumberedSegment(prefix, k) == NumberedSegment(segments, k);
  }

  /** With consecutive ids the map holds exactly the keys 1 ..= |segments|,
      key `k` holding segment `k - 1`. */
  lemma {:induction false} ConsecutiveById(segments: seq<TrackSegment>)
    requires ConsecutiveIds(segments)
    ensures SegmentsById(segments) == Numbered(segments)
    decreases |segments|
  {
    if segments != [] {
      var n := |segments| - 1;
      var prefix := segments[..n];
      assert ConsecutiveIds(prefix) by {
        assert forall k :: 0 <= k < |prefix| ==> prefix[k] == segments[k];
      }
      ConsecutiveById(prefix);
      assert segments[n].id == n + 1;
      NumberedStep(segments);
    }
  }

  /** The loop of update_track_entity on the values it reads and writes. */
  method IndexSegments(segments: seq<TrackSegment>) returns (m: map<nat, TrackSegment>)
    ensures m == SegmentsById(segments)
  {
    m := map[];
    for i := 0 to |segments|
      invariant m == SegmentsById(segments[..i])
    {
      assert segments[..i + 1][..i] == segments[..i];
      m := m[segments[i].id := segments[i]];
    }
    assert segments[..|segments|] == segments;
  }

  /** The PlacementData resource. */
  class PlacementData {
    var hasTrackShape: bool
    var trackMaterial: Option<Handle>
    var segments: seq<TrackSegment>
    var lastPlacedSegmentId: nat
    var lastUsedNodeId: nat

    /** Ids run from 1, no segment is placed before it exists, and the last
        used route node is 0 before any segment and one past the segment
        count after. */
    ghost predicate Valid()
      reads this
    {
      && ConsecutiveIds(segments)
      && lastPlacedSegmentId <= |segments|
      && lastUsedNodeId == (if segments == [] then 0 else |segments| + 1)
    }

    /** PlacementData::default. */
    constructor()
      ensures Valid() && !hasTrackShape && trackMaterial.None? && segments == []
      ensures lastPlacedSegmentId == 0 && lastUsedNodeId == 0
    {
      hasTrackShape := false;
      trackMaterial := None;
      segments := [];
      lastPlacedSegmentId := 0;
      lastUsedNodeId := 0;
    }

    /** current_segment_id: 0 with no segments, else the last one's id; with
        consecutive ids that is the number of segments. */
    function CurrentSegmentId(): (r: nat)
      reads this
      ensures ConsecutiveIds(segments) ==> r == |segments|
      ensures r == 0 <== segments == []
    {
      if segments == [] then 0 else segments[|segments| - 1].id
    }

    /** The route node update_placement_data builds the next segment towards. */
    function IdToAdd(): nat
      reads this
    {
      if lastUsedNodeId == 0 then 2 else lastUsedNodeId + 1
    }

    /** update_placement_data: once the route has more than three nodes and
        a node after the next one to use, one segment from node
        `id_to_add - 1` to node `id_to_add` is appended with the next id.
        `generatePath(previous, last, new, next)` is the opaque Bezier path
        of that node pair; the route's missing `get_next_point(id)` is
        read as node `id + 1`. `get_last_id` panics on an empty route. */
    method UpdatePlacementData(route: RouteGen.Route, generatePath: (Vec3, Vec3, Vec3, Vec3) -> seq<OrientedPoint>)
      requires route.idCounter >= 1
      modifies this
      ensures var id := old(IdToAdd());
        if route.idCounter - 1 <= 2 || route.idCounter - 1 == old(lastUsedNodeId) || id + 1 >= |route.points| then
          segments == old(segments) && lastUsedNodeId == old(lastUsedNodeId)
        else
          var p := route.points;
          && segments == old(segments) + [TrackSegment(old(CurrentSegmentId()) + 1, generatePath(p[id - 2], p[id - 1], p[id], p[id + 1]), p[id - 1])]
          && lastUsedNodeId == id
      ensures lastPlacedSegmentId == old(lastPlacedSegmentId)
      ensures hasTrackShape == old(hasTrackShape) && trackMaterial == old(trackMaterial)
      ensures old(Valid()) ==> Valid()
    {
      var idToAdd := IdToAdd();
      var lastId := route.GetLastId();
      if lastId <= 2 || lastId == lastUsedNodeId || route.GetPoint(idToAdd + 1).None? {
        return;
      }
      var nextNode := route.GetPoint(idToAdd + 1).value;
      var newNode := route.GetPoint(idToAdd).value;
      var lastNode := route.GetPoint(idToAdd - 1).value;
      var previousNode := route.GetPoint(idToAdd - 2).value;
      var path := generatePath(previousNode, lastNode, newNode, nextNode);
      var segment := TrackSegment(CurrentSegmentId() + 1, path, lastNode);
      segments, lastUsedNodeId := segments + [segment], idToAdd;
    }

    /** place_tracks: with shape and material loaded and a segment not placed
        yet, the next segment (found by id) is placed, and returned here. */
    method PlaceTracks() returns (placed: Option<TrackSegment>)
      requires hasTrackShape && trackMaterial.Some? && lastPlacedSegmentId + 1 <= CurrentSegmentId() ==>
        FindSegment(segments, lastPlacedSegmentId + 1).Some?
      modifies this
      ensures if !old(hasTrackShape) || old(trackMaterial).None? || old(lastPlacedSegmentId) + 1 > old(CurrentSegmentId()) then
          placed.None? && lastPlacedSegmentId == old(lastPlacedSegmentId)
        else
          placed == FindSegment(segments, old(lastPlacedSegmentId) + 1) && lastPlacedSegmentId == old(lastPlacedSegmentId) + 1
      ensures segments == old(segments) && lastUsedNodeId == old(lastUsedNodeId)
      ensures hasTrackShape == old(hasTrackShape) && trackMaterial == old(trackMaterial)
      ensures old(Valid()) ==> Valid() && (placed.Some? ==> placed == Some(segments[lastPlacedSegmentId - 1]))
    {
      if !hasTrackShape || trackMaterial.None? {
        placed := None;
        return;
      }
      if lastPlacedSegmentId + 1 > CurrentSegmentId() {
        placed := None;
        return;
      }
      var idToPlace := lastPlacedSegmentId + 1;
      var segment := FindSegment(segments, idToPlace).value;
      if Valid() {
        FindConsecutive(segments, idToPlace);
      }
      placed := Some(segment);
      lastPlacedSegmentId := idToPlace;
    }
  }

  /** A valid placement state never makes place_tracks' `find(...).unwrap()` fail. */
  lemma ValidPlacementFinds(segments: seq<TrackSegment>, lastPlaced: nat)
    requires ConsecutiveIds(segments) && lastPlaced + 1 <= |segments|
    ensures FindSegment(segments, lastPlaced + 1).Some?
  {
    FindConsecutive(segments, lastPlaced + 1);
  }

  /** update_track_entity: the track's map is rebuilt from the placement
      segments. */
  method UpdateTrackEntity(track: Track, data: PlacementData)
    modifies track
    ensures track.segments == SegmentsById(data.segments)
  {
    var m := IndexSegments(data.segments);
    track.segments := m;
  }

  /** After update_track_entity on valid placement data, the track finds a
      segment at `t` exactly when `1 <= floor(t) <= |segments|`. */
  lemma TrackCoverage(segments: seq<TrackSegment>, t: real)
    requires ConsecutiveIds(segments) && t >= 0.0
    ensures t.Floor in SegmentsById(segments) <==> 1 <= t.Floor <= |segments|
  {
    ConsecutiveById(segments);
    var k: nat := t.Floor;
    assert k in SegmentsById(segments) <==> 1 <= k <= |segments|;
  }
}
