/** src/rolling_stock/utils.rs: the mass a bogie carries, and the bogies
    attached to a wagon. */
module RollingStockUtils {
  import opened Common
  import opened RollingStock
  import BogieSystems

  /** get_carried_mass: an attached bogie carries half its wagon on top of
      its own mass; the wagon must be in the query (the source unwraps). */
  function GetCarriedMass(attachedTo: Option<Entity>, physics: BogiePhysics, wagons: map<Entity, Wagon>): (m: real)
    requires attachedTo.Some? ==> attachedTo.value in wagons
    ensures attachedTo.None? ==> m == physics.mass
    ensures attachedTo.Some? ==> 2.0 * (m - physics.mass) == wagons[attachedTo.value].mass
  {
    if attachedTo.Some? then
      var wagon := wagons[attachedTo.value];
      var carriedWagonMass := wagon.mass / 2.0;
      carriedWagonMass + physics.mass
    else physics.mass
  }

  /** The two bogies of a wagon together carry the wagon exactly once. */
  lemma PairCarriesWagon(w: Entity, wagons: map<Entity, Wagon>, a: BogiePhysics, b: BogiePhysics)
    requires w in wagons
    ensures GetCarriedMass(Some(w), a, wagons) + GetCarriedMass(Some(w), b, wagons) == wagons[w].mass + a.mass + b.mass
  {
  }

  /** The force systems' mass exceeds the carried mass by half the wagon:
      there each bogie of a pair counts the whole wagon. */
  lemma EffectiveMassCountsWholeWagon(e: BogieEntity, wagons: map<Entity, Wagon>)
    requires BogieSystems.WagonKnown(e, wagons)
    ensures e.attachedTo.Some? ==>
      BogieSystems.EffectiveMass(e, wagons) == GetCarriedMass(e.attachedTo, e.physics, wagons) + wagons[e.attachedTo.value].mass / 2.0
    ensures e.attachedTo.None? ==> BogieSystems.EffectiveMass(e, wagons) == GetCarriedMass(e.attachedTo, e.physics, wagons)
  {
  }

  /** The entities of a (entity, attached wagon) query attached to `wagon`,
      in query order. */
  function AttachedEntities(query: seq<(Entity, Entity)>, wagon: Entity): (r: seq<Entity>)
    ensures |r| <= |query|
    ensures forall e :: e in r <==> exists k :: 0 <= k < |query| && query[k] == (e, wagon)
    decreases |query|
  {
    if query == [] then []
    else
      var n := |query| - 1;
      var front := AttachedEntities(query[..n], wagon);
      assert forall k :: 0 <= k < n ==> query[..n][k] == query[k];
      if query[n].1 == wagon then front + [query[n].0] else front
  }

  /** The filter distributes over concatenation: the result keeps the
      query's order. */
  lemma {:induction false} AttachedConcat(a: seq<(Entity, Entity)>, b: seq<(Entity, Entity)>, wagon: Entity)
    ensures AttachedEntities(a + b, wagon) == AttachedEntities(a, wagon) + AttachedEntities(b, wagon)
    decreases |b|
  {
    if b != [] {
      var n := |b| - 1;
      assert (a + b)[..|a + b| - 1] == a + b[..n];
      AttachedConcat(a, b[..n], wagon);
    } else {
      assert a + b == a;
    }
  }

  /** get_attached_bogies. */
  method GetAttachedBogies(wagon: Entity, query: seq<(Entity, Entity)>) returns (result: seq<Entity>)
    ensures result == AttachedEntities(query, wagon)
  {
    result := [];
    for i := 0 to |query|
      invariant result == AttachedEntities(query[..i], wagon)
    {
      var (entity, attachedTo) := query[i];
      assert query[..i + 1][..i] == query[..i];
      if attachedTo == wagon {
        result := result + [entity];
      }
    }
    assert query[..|query|] == query;
  }
}
