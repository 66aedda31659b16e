/** src/rolling_stock/bogie_systems.rs: the per-bogie physics systems, each
    a loop over the bogie query updating one component in place. */
module BogieSystems {
  import opened Common
  import opened RollingStock
  import TrainTracks

  const GRAV_ACCELERATION: real := -9.81
  /** Scales velocity into track-parameter units. */
  const T_COEFFICIENT: real := 100.0

  /** apply_bogie_velocities on one bogie: t advances by velocity / 6000
      per step and nothing else changes. */
  function Advanced(e: BogieEntity): (r: BogieEntity)
    ensures r.bogie.positionOnTrack - e.bogie.positionOnTrack == e.physics.velocity / 6000.0
    ensures r == e.(bogie := e.bogie.(positionOnTrack := r.bogie.positionOnTrack))
  {
    e.(bogie := e.bogie.(positionOnTrack := e.bogie.positionOnTrack + e.physics.velocity * PHYSICS_TIMESTEP / T_COEFFICIENT))
  }

  /** apply_bogie_velocities. */
  method ApplyBogieVelocities(bogies: array<BogieEntity>)
    modifies bogies
    ensures forall i :: 0 <= i < bogies.Length ==> bogies[i] == Advanced(old(bogies[i]))
  {
    for i := 0 to bogies.Length
      invariant forall j :: 0 <= j < i ==> bogies[j] == Advanced(old(bogies[j]))
      invariant forall j :: i <= j < bogies.Length ==> bogies[j] == old(bogies[j])
    {
      var e := bogies[i];
      bogies[i] := e.(bogie := e.bogie.(positionOnTrack := e.bogie.positionOnTrack + e.physics.velocity * PHYSICS_TIMESTEP / T_COEFFICIENT));
    }
  }

  /** The wagon of an attached bogie is in the wagon query; otherwise the
      source's `wagons_query.get(..).unwrap()` panics. */
  predicate WagonKnown(e: BogieEntity, wagons: map<Entity, Wagon>) {
    e.attachedTo.Some? ==> e.attachedTo.value in wagons
  }

  /** The mass both force systems use: the whole wagon's mass plus the
      bogie's when attached, the bogie's alone otherwise. */
  function EffectiveMass(e: BogieEntity, wagons: map<Entity, Wagon>): real
    requires WagonKnown(e, wagons)
  {
    if e.attachedTo.Some? then wagons[e.attachedTo.value].mass + e.physics.mass else e.physics.mass
  }

  /** apply_bogie_forces on one bogie of mass `m`: the velocity gains the
      impulse `(vertical + horizontal) * dt` over the mass, and nothing else
      changes. */
  function Accelerated(e: BogieEntity, m: real): (r: BogieEntity)
    requires m != 0.0
    ensures (r.physics.velocity - e.physics.velocity) * m == (e.physics.verticalForce + e.physics.horizontalForce) * PHYSICS_TIMESTEP
    ensures r == e.(physics := e.physics.(velocity := r.physics.velocity))
  {
    var p := e.physics;
    var r := e.(physics := p.(velocity := p.velocity + (p.verticalForce + p.horizontalForce) / m * PHYSICS_TIMESTEP));
    assert (p.verticalForce + p.horizontalForce) / m * PHYSICS_TIMESTEP * m == (p.verticalForce + p.horizontalForce) * PHYSICS_TIMESTEP;
    r
  }

  /** A bogie apply_bogie_forces can handle: its wagon is known, and its
      mass is not zero (the model has no floating-point infinity). */
  predicate ForceReady(e: BogieEntity, wagons: map<Entity, Wagon>) {
    WagonKnown(e, wagons) && EffectiveMass(e, wagons) != 0.0
  }

  ghost predicate AllForceReady(es: seq<BogieEntity>, wagons: map<Entity, Wagon>) {
    forall i :: 0 <= i < |es| ==> ForceReady(es[i], wagons)
  }

  /** apply_bogie_forces. */
  method ApplyBogieForces(bogies: array<BogieEntity>, wagons: map<Entity, Wagon>)
    requires AllForceReady(bogies[..], wagons)
    modifies bogies
    ensures forall i :: 0 <= i < bogies.Length ==> bogies[i] == Accelerated(old(bogies[..])[i], EffectiveMass(old(bogies[..])[i], wagons))
  {
    ghost var es := bogies[..];
    for i := 0 to bogies.Length
      invariant forall j :: 0 <= j < i ==> bogies[j] == Accelerated(es[j], EffectiveMass(es[j], wagons))
      invariant forall j :: i <= j < bogies.Length ==> bogies[j] == es[j]
    {
      var e := bogies[i];
      assert e == es[i];
      var mass;
      if e.attachedTo.Some? {
        var wagon := wagons[e.attachedTo.value];
        mass := wagon.mass + e.physics.mass;
      } else {
        mass := e.physics.mass;
      }
      var p := e.physics;
      bogies[i] := e.(physics := p.(velocity := p.velocity + (p.verticalForce + p.horizontalForce) / mass * PHYSICS_TIMESTEP));
    }
  }

  /** set_bogie_vertical_forces on one bogie given the track's slope at its
      t: kept when there is no slope, else the gravity component
      `m * g * sin(slope)` along the track replaces the vertical force.
      `sin` is the opaque sine. */
  function WithVerticalForce(e: BogieEntity, slope: Option<real>, wagons: map<Entity, Wagon>, sin: real -> real): (r: BogieEntity)
    requires slope.Some? ==> WagonKnown(e, wagons)
    ensures r == e.(physics := e.physics.(verticalForce := r.physics.verticalForce))
    ensures slope.None? ==> r == e
  {
    if slope.None? then e
    else
      var mass := EffectiveMass(e, wagons);
      e.(physics := e.physics.(verticalForce := mass * GRAV_ACCELERATION * sin(slope.value)))
  }

  lemma NegProduct(m: real, s: real)
    requires m > 0.0
    ensures m * GRAV_ACCELERATION * s < 0.0 <==> s > 0.0
    ensures m * GRAV_ACCELERATION * s == 0.0 <==> s == 0.0
  {
    assert m * GRAV_ACCELERATION * s == -(9.81 * m * s);
    if s > 0.0 {
      assert m * s > 0.0;
    } else if s < 0.0 {
      assert m * (-s) > 0.0;
    }
  }

  /** For a positive mass the slope force pulls back (is negative) exactly
      on an upward slope, and vanishes exactly on a level one. */
  lemma VerticalForceOpposesClimb(e: BogieEntity, slope: real, wagons: map<Entity, Wagon>, sin: real -> real)
    requires WagonKnown(e, wagons) && EffectiveMass(e, wagons) > 0.0
    ensures var f := WithVerticalForce(e, Some(slope), wagons, sin).physics.verticalForce;
      (f < 0.0 <==> sin(slope) > 0.0) && (f == 0.0 <==> sin(slope) == 0.0)
  {
    NegProduct(EffectiveMass(e, wagons), sin(slope));
  }

  /** The track query answers at this bogie's t, and the bogie's wagon is
      known where the slope is needed. */
  ghost predicate SlopeReady(e: BogieEntity, segments: map<nat, TrainTracks.TrackSegment>, wagons: map<Entity, Wagon>, slopeAngle: (Vec3, Vec3) -> real) {
    && TrainTracks.QueryOk(segments, e.bogie.positionOnTrack)
    && (TrainTracks.SlopeAt(segments, e.bogie.positionOnTrack, slopeAngle).Some? ==> WagonKnown(e, wagons))
  }

  ghost predicate AllSlopeReady(es: seq<BogieEntity>, segments: map<nat, TrainTracks.TrackSegment>, wagons: map<Entity, Wagon>, slopeAngle: (Vec3, Vec3) -> real) {
    forall i :: 0 <= i < |es| ==> SlopeReady(es[i], segments, wagons, slopeAngle)
  }

  /** The new state of one bogie under set_bogie_vertical_forces. */
  ghost function SlopedBogie(e: BogieEntity, segments: map<nat, TrainTracks.TrackSegment>, wagons: map<Entity, Wagon>,
                             slopeAngle: (Vec3, Vec3) -> real, sin: real -> real): BogieEntity
    requires SlopeReady(e, segments, wagons, slopeAngle)
  {
    WithVerticalForce(e, TrainTracks.SlopeAt(segments, e.bogie.positionOnTrack, slopeAngle), wagons, sin)
  }

  /** The loop body of set_bogie_vertical_forces for one bogie. */
  method SetVerticalForce(e: BogieEntity, track: TrainTracks.Track, wagons: map<Entity, Wagon>,
                          slopeAngle: (Vec3, Vec3) -> real, sin: real -> real) returns (r: BogieEntity)
    requires SlopeReady(e, track.segments, wagons, slopeAngle)
    ensures r == SlopedBogie(e, track.segments, wagons, slopeAngle, sin)
  {
    var slope := track.GetSlopeAngleAtT(e.bogie.positionOnTrack, slopeAngle);
    if slope.None? {
      return e;
    }
    var slopeSin := sin(slope.value);
    var mass;
    if e.attachedTo.Some? {
      var wagon := wagons[e.attachedTo.value];
      mass := wagon.mass + e.physics.mass;
    } else {
      mass := e.physics.mass;
    }
    r := e.(physics := e.physics.(verticalForce := mass * GRAV_ACCELERATION * slopeSin));
  }

  /** set_bogie_vertical_forces; `track` is the single Track, None when
      there is none. */
  method SetBogieVerticalForces(bogies: array<BogieEntity>, wagons: map<Entity, Wagon>, track: Option<TrainTracks.Track>,
                                slopeAngle: (Vec3, Vec3) -> real, sin: real -> real)
    requires track.Some? ==> AllSlopeReady(bogies[..], track.value.segments, wagons, slopeAngle)
    modifies bogies
    ensures track.None? ==> bogies[..] == old(bogies[..])
    ensures track.Some? ==> forall i :: 0 <= i < bogies.Length ==>
      bogies[i] == SlopedBogie(old(bogies[..])[i], track.value.segments, wagons, slopeAngle, sin)
  {
    if track.None? {
      return;
    }
    var tr := track.value;
    ghost var es := bogies[..];
    for i := 0 to bogies.Length
      invariant forall j :: 0 <= j < i ==> bogies[j] == SlopedBogie(es[j], tr.segments, wagons, slopeAngle, sin)
      invariant forall j :: i <= j < bogies.Length ==> bogies[j] == es[j]
    {
      assert bogies[i] == es[i];
      bogies[i] := SetVerticalForce(bogies[i], tr, wagons, slopeAngle, sin);
    }
  }

  /** update_bogie_transforms on one bogie: moved to the track's pose when
      there is one, unchanged otherwise; scale and every other component
      keep their values. */
  function Placed(e: BogieEntity, pose: Option<(Vec3, Quat)>): (r: BogieEntity)
    ensures r == e.(transform := e.transform.(translation := r.transform.translation, rotation := r.transform.rotation))
    ensures pose.None? ==> r == e
    ensures pose.Some? ==> (r.transform.translation, r.transform.rotation) == pose.value
  {
    if pose.Some? then e.(transform := e.transform.(translation := pose.value.0, rotation := pose.value.1)) else e
  }

  ghost predicate AllQueryOk(es: seq<BogieEntity>, segments: map<nat, TrainTracks.TrackSegment>) {
    forall i :: 0 <= i < |es| ==> TrainTracks.QueryOk(segments, es[i].bogie.positionOnTrack)
  }

  /** The new state of one bogie under update_bogie_transforms. */
  ghost function PlacedBogie(e: BogieEntity, segments: map<nat, TrainTracks.TrackSegment>, quatLerp: (Quat, Quat, real) -> Quat): BogieEntity
    requires TrainTracks.QueryOk(segments, e.bogie.positionOnTrack)
  {
    Placed(e, TrainTracks.PoseAt(segments, e.bogie.positionOnTrack, quatLerp))
  }

  /** The loop body of update_bogie_transforms for one bogie. */
  method UpdateTransform(e: BogieEntity, track: TrainTracks.Track, quatLerp: (Quat, Quat, real) -> Quat) returns (r: BogieEntity)
    requires TrainTracks.QueryOk(track.segments, e.bogie.positionOnTrack)
    ensures r == PlacedBogie(e, track.segments, quatLerp)
  {
    var t := e.bogie.positionOnTrack;
    var pointOption := track.GetInterpolatedPositionAtT(t, quatLerp);
    r := e;
    if pointOption.Some? {
      var (position, rotation) := pointOption.value;
      r := e.(transform := e.transform.(translation := position, rotation := rotation));
    }
  }

  /** update_bogie_transforms; `track` is the single Track, None when there
      is none. */
  method UpdateBogieTransforms(bogies: array<BogieEntity>, track: Option<TrainTracks.Track>, quatLerp: (Quat, Quat, real) -> Quat)
    requires track.Some? ==> AllQueryOk(bogies[..], track.value.segments)
    modifies bogies
    ensures track.None? ==> bogies[..] == old(bogies[..])
    ensures track.Some? ==> forall i :: 0 <= i < bogies.Length ==>
      bogies[i] == PlacedBogie(old(bogies[..])[i], track.value.segments, quatLerp)
  {
    if track.None? {
      return;
    }
    var tr := track.value;
    ghost var es := bogies[..];
    for i := 0 to bogies.Length
      invariant forall j :: 0 <= j < i ==> bogies[j] == PlacedBogie(es[j], tr.segments, quatLerp)
      invariant forall j :: i <= j < bogies.Length ==> bogies[j] == es[j]
    {
      assert bogies[i] == es[i];
      bogies[i] := UpdateTransform(bogies[i], tr, quatLerp);
    }
  }
}
