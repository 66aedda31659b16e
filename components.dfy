/** src/rolling_stock/components.rs: the rolling-stock components, and the
    query row a bogie entity contributes to the physics systems. */
module RollingStock {
  import opened Common

  /** An ECS entity id. */
  type Entity = nat

  /** Bogie: its role in its wagon (None when unattached), its track and
      its parameter t on that track (segment index plus position inside). */
  datatype Bogie = Bogie(isLeading: Option<bool>, currentTrack: nat, positionOnTrack: real)

  /** BogiePhysics: mass in kg, velocity, and the slope-free and
      slope-dependent forces. */
  datatype BogiePhysics = BogiePhysics(mass: real, velocity: real, horizontalForce: real, verticalForce: real)

  /** Wagon: its mass and the rest distance between its bogies. */
  datatype Wagon = Wagon(mass: real, distanceBetweenBogies: real)

  /** Bevy's Transform. */
  datatype Transform = Transform(translation: Vec3, rotation: Quat, scale: Vec3)

  /** One bogie entity's components; `attachedTo` is its AttachedTo wagon. */
  datatype BogieEntity = BogieEntity(bogie: Bogie, physics: BogiePhysics, transform: Transform, attachedTo: Option<Entity>)

  /** The fixed physics step, 1/60 s (src/rolling_stock/mod.rs). */
  const PHYSICS_TIMESTEP: real := 1.0 / 60.0
}
