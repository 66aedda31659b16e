/** src/rolling_stock/wagon_systems.rs: constrain_attached_bogies groups the
    attached bogies by wagon and, per wagon, nudges the trailing bogie along
    the track towards the wagon's rest distance from the leading one. */
module WagonSystems {
  import opened Common
  import opened RollingStock

  /** The per-step gain of the soft distance constraint. */
  const CONSTRAINT_GAIN: real := 0.01

  /** The indices among the first `n` bogies attached to wagon `w`, in
      query order: the vector the grouping loop builds for `w`. */
  function Group(es: seq<BogieEntity>, n: nat, w: Entity): (g: seq<nat>)
    requires n <= |es|
    ensures forall k :: 0 <= k < |g| ==> g[k] < n && es[g[k]].attachedTo == Some(w)
    ensures forall i :: 0 <= i < n && es[i].attachedTo == Some(w) ==> i in g
    ensures forall k, l :: 0 <= k < l < |g| ==> g[k] < g[l]
  {
    if n == 0 then []
    else Group(es, n - 1, w) + (if es[n - 1].attachedTo == Some(w) then [n - 1] else [])
  }

  /** The bogie moved along the track by `delta`. */
  function Shift(e: BogieEntity, delta: real): BogieEntity {
    e.(bogie := e.bogie.(positionOnTrack := e.bogie.positionOnTrack + delta))
  }

  /** Some bogie attached to `w` has the given role. */
  ghost predicate HasRole(es: seq<BogieEntity>, w: Entity, leading: bool) {
    exists k :: 0 <= k < |es| && es[k].attachedTo == Some(w) && es[k].bogie.isLeading == Some(leading)
  }

  /** What constrain_attached_bogies demands: every attached bogie has a
      role and a known wagon, and every wagon with bogies has both a leading
      and a trailing one (otherwise one of its `unwrap`s panics). */
  ghost predicate ConstrainOk(es: seq<BogieEntity>, wagons: map<Entity, Wagon>) {
    forall i :: 0 <= i < |es| ==> BogieOk(es, wagons, i)
  }

  /** Bogie `i`, when attached, has a role, a known wagon, and a wagon with
      both roles present. */
  ghost predicate BogieOk(es: seq<BogieEntity>, wagons: map<Entity, Wagon>, i: nat)
    requires i < |es|
  {
    es[i].attachedTo.Some? ==>
      && es[i].attachedTo.value in wagons
      && es[i].bogie.isLeading.Some?
      && HasRole(es, es[i].attachedTo.value, true)
      && HasRole(es, es[i].attachedTo.value, false)
  }

  /** The last bogie of group `g` with the given role: the one the role
      loop leaves in `leading_bogie` or `trailing_bogie`. */
  function LastWithRole(es: seq<BogieEntity>, g: seq<nat>, leading: bool): (r: Option<nat>)
    requires forall k :: 0 <= k < |g| ==> g[k] < |es|
    ensures r.None? <==> forall k :: 0 <= k < |g| ==> es[g[k]].bogie.isLeading != Some(leading)
    ensures r.Some? ==> r.value in g && es[r.value].bogie.isLeading == Some(leading)
    decreases |g|
  {
    if g == [] then None
    else if es[g[|g| - 1]].bogie.isLeading == Some(leading) then Some(g[|g| - 1])
    else
      var r := LastWithRole(es, g[..|g| - 1], leading);
      assert forall k :: 0 <= k < |g| - 1 ==> g[..|g| - 1][k] == g[k];
      r
  }

  /** The bogie found has the role, and no later bogie of the group has it:
      later ones overwrite earlier ones. */
  lemma {:induction false} LastWithRoleIsLast(es: seq<BogieEntity>, g: seq<nat>, leading: bool)
    requires forall k :: 0 <= k < |g| ==> g[k] < |es|
    requires LastWithRole(es, g, leading).Some?
    ensures exists k :: 0 <= k < |g| && g[k] == LastWithRole(es, g, leading).value && NoRoleAfter(es, g, k, leading)
    decreases |g|
  {
    var n := |g| - 1;
    if es[g[n]].bogie.isLeading != Some(leading) {
      var p := g[..n];
      assert forall k :: 0 <= k < n ==> p[k] == g[k];
      LastWithRoleIsLast(es, p, leading);
      var k :| 0 <= k < |p| && p[k] == LastWithRole(es, p, leading).value && NoRoleAfter(es, p, k, leading);
      assert NoRoleAfter(es, g, k, leading);
    } else {
      assert NoRoleAfter(es, g, n, leading);
    }
  }

  ghost predicate NoRoleAfter(es: seq<BogieEntity>, g: seq<nat>, k: nat, leading: bool)
    requires forall l :: 0 <= l < |g| ==> g[l] < |es|
  {
    forall l :: k < l < |g| ==> es[g[l]].bogie.isLeading != Some(leading)
  }

  /** A role some bogie of the wagon has is found in the wagon's group. */
  lemma RoleFound(es: seq<BogieEntity>, w: Entity, leading: bool)
    requires HasRole(es, w, leading)
    ensures LastWithRole(es, Group(es, |es|, w), leading).Some?
  {
    var g := Group(es, |es|, w);
    var k :| 0 <= k < |es| && es[k].attachedTo == Some(w) && es[k].bogie.isLeading == Some(leading);
    var p :| 0 <= p < |g| && g[p] == k;
  }

  /** The bogie at index `j` after constrain_attached_bogies: the last
      trailing bogie of its wagon moves by `0.01 * (d - rest)`, `d` being
      its distance from the wagon's last leading bogie; every other bogie,
      and every other component, is unchanged. `distance` is the opaque
      Vec3::distance. */
  function Constrained(es: seq<BogieEntity>, wagons: map<Entity, Wagon>, distance: (Vec3, Vec3) -> real, j: nat): (r: BogieEntity)
    requires ConstrainOk(es, wagons) && j < |es|
    ensures r == es[j].(bogie := es[j].bogie.(positionOnTrack := r.bogie.positionOnTrack))
    ensures es[j].bogie.isLeading == Some(true) ==> r == es[j]
    ensures es[j].attachedTo.None? ==> r == es[j]
  {
    match es[j].attachedTo
    case None => es[j]
    case Some(w) =>
      assert BogieOk(es, wagons, j);
      var g := Group(es, |es|, w);
      TrailingMove(es, wagons[w], distance, LastWithRole(es, g, true), LastWithRole(es, g, false), j)
  }

  /** Bogie `j` of a wagon whose last leading and last trailing bogies are
      `lead` and `trail`: moved by the constraint if it is the trailing one. */
  function TrailingMove(es: seq<BogieEntity>, wagon: Wagon, distance: (Vec3, Vec3) -> real,
                        lead: Option<nat>, trail: Option<nat>, j: nat): BogieEntity
    requires j < |es| && (lead.Some? ==> lead.value < |es|)
  {
    if lead.Some? && trail == Some(j) then
      Shift(es[j], CONSTRAINT_GAIN * (distance(es[lead.value].transform.translation, es[j].transform.translation) - wagon.distanceBetweenBogies))
    else es[j]
  }

  /** A wagon's group has exactly one bogie that moves, its last trailing one. */
  lemma OnlyLastTrailingMoves(es: seq<BogieEntity>, wagons: map<Entity, Wagon>, distance: (Vec3, Vec3) -> real, j: nat)
    requires ConstrainOk(es, wagons) && j < |es|
    requires es[j].attachedTo.Some?
    requires LastWithRole(es, Group(es, |es|, es[j].attachedTo.value), false) != Some(j)
    ensures Constrained(es, wagons, distance, j) == es[j]
  {
    assert BogieOk(es, wagons, j);
  }

  /** Within wagon `w`'s group every bogie but the last trailing one is kept. */
  lemma ConstrainedKeepsOthers(es: seq<BogieEntity>, wagons: map<Entity, Wagon>, distance: (Vec3, Vec3) -> real,
                               w: Entity, trail: nat)
    requires ConstrainOk(es, wagons)
    requires LastWithRole(es, Group(es, |es|, w), false) == Some(trail)
    ensures forall j | 0 <= j < |es| && es[j].attachedTo == Some(w) && j != trail :: Constrained(es, wagons, distance, j) == es[j]
  {
    forall j | 0 <= j < |es| && es[j].attachedTo == Some(w) && j != trail
      ensures Constrained(es, wagons, distance, j) == es[j]
    {
      OnlyLastTrailingMoves(es, wagons, distance, j);
    }
  }

  /** The last trailing bogie of wagon `w` is shifted by the constraint. */
  lemma ConstrainedShiftsTrailing(es: seq<BogieEntity>, wagons: map<Entity, Wagon>, distance: (Vec3, Vec3) -> real,
                                  w: Entity, lead: nat, trail: nat)
    requires ConstrainOk(es, wagons) && trail < |es| && es[trail].attachedTo == Some(w) && w in wagons
    requires LastWithRole(es, Group(es, |es|, w), true) == Some(lead)
    requires LastWithRole(es, Group(es, |es|, w), false) == Some(trail)
    ensures Constrained(es, wagons, distance, trail) ==
      Shift(es[trail], CONSTRAINT_GAIN * (distance(es[lead].transform.translation, es[trail].transform.translation) - wagons[w].distanceBetweenBogies))
  {
    assert BogieOk(es, wagons, trail);
  }

  /** The role loop of constrain_attached_bogies over one group. */
  method PickRoles(es: seq<BogieEntity>, g: seq<nat>) returns (leading: Option<nat>, trailing: Option<nat>)
    requires forall k :: 0 <= k < |g| ==> g[k] < |es| && es[g[k]].bogie.isLeading.Some?
    ensures leading == LastWithRole(es, g, true)
    ensures trailing == LastWithRole(es, g, false)
  {
    leading, trailing := None, None;
    for k := 0 to |g|
      invariant leading == LastWithRole(es, g[..k], true)
      invariant trailing == LastWithRole(es, g[..k], false)
    {
      assert g[..k + 1][..k] == g[..k];
      if es[g[k]].bogie.isLeading.value {
        leading := Some(g[k]);
      } else {
        trailing := Some(g[k]);
      }
    }
    assert g[..|g|] == g;
  }

  /** `groups` maps exactly the wagons with bogies among the first `n` to
      their groups. */
  ghost predicate GroupsAt(es: seq<BogieEntity>, n: nat, groups: map<Entity, seq<nat>>)
    requires n <= |es|
  {
    && (forall w :: w in groups <==> Group(es, n, w) != [])
    && (forall w | w in groups :: groups[w] == Group(es, n, w))
  }

  /** Appending bogie `i` to its wagon's vector (creating it first) extends
      the grouping by one bogie. */
  lemma GroupsAdvance(es: seq<BogieEntity>, i: nat, groups: map<Entity, seq<nat>>, w: Entity)
    requires i < |es| && GroupsAt(es, i, groups) && es[i].attachedTo == Some(w)
    ensures GroupsAt(es, i + 1, groups[w := (if w in groups then groups[w] else []) + [i]])
  {
    var next := groups[w := (if w in groups then groups[w] else []) + [i]];
    forall v ensures Group(es, i + 1, v) == Group(es, i, v) + (if v == w then [i] else []) {
    }
    assert forall v :: v in next <==> Group(es, i + 1, v) != [];
  }

  lemma GroupsSkip(es: seq<BogieEntity>, i: nat, groups: map<Entity, seq<nat>>)
    requires i < |es| && GroupsAt(es, i, groups) && es[i].attachedTo.None?
    ensures GroupsAt(es, i + 1, groups)
  {
    forall v ensures Group(es, i + 1, v) == Group(es, i, v) {
    }
  }

  /** One step of the grouping loop: bogie `i` is pushed onto its wagon's
      vector, which is created first when missing. */
  method AddToGroups(es: seq<BogieEntity>, i: nat, groups: map<Entity, seq<nat>>) returns (next: map<Entity, seq<nat>>)
    requires i < |es| && GroupsAt(es, i, groups)
    ensures GroupsAt(es, i + 1, next)
  {
    next := groups;
    if es[i].attachedTo.Some? {
      var w := es[i].attachedTo.value;
      GroupsAdvance(es, i, groups, w);
      if w !in next {
        next := next[w := []];
      }
      next := next[w := next[w] + [i]];
      assert next == groups[w := (if w in groups then groups[w] else []) + [i]];
    } else {
      GroupsSkip(es, i, groups);
    }
  }

  /** The grouping loop of constrain_attached_bogies: wagon → indices of its
      bogies in query order. */
  method GroupByWagon(es: seq<BogieEntity>) returns (groups: map<Entity, seq<nat>>)
    ensures GroupsAt(es, |es|, groups)
  {
    groups := map[];
    for i := 0 to |es|
      invariant GroupsAt(es, i, groups)
    {
      groups := AddToGroups(es, i, groups);
    }
  }

  /** The distance correction of constrain_attached_bogies: backwards by
      the gain times the shortfall when too close, forwards by the gain
      times the excess otherwise, in both cases a shift of `0.01 * (d - rest)`. */
  method ShiftTrailing(b: BogieEntity, currentDistance: real, distanceBetweenBogies: real) returns (r: BogieEntity)
    ensures r == Shift(b, CONSTRAINT_GAIN * (currentDistance - distanceBetweenBogies))
  {
    if currentDistance < distanceBetweenBogies {
      r := b.(bogie := b.bogie.(positionOnTrack := b.bogie.positionOnTrack - CONSTRAINT_GAIN * Abs(currentDistance - distanceBetweenBogies)));
    } else {
      r := b.(bogie := b.bogie.(positionOnTrack := b.bogie.positionOnTrack + CONSTRAINT_GAIN * Abs(currentDistance - distanceBetweenBogies)));
    }
  }

  /** A wagon's group under constrain_attached_bogies' demands: the wagon is
      known, every member has a role, and both roles are found. */
  lemma GroupRoles(es: seq<BogieEntity>, wagons: map<Entity, Wagon>, w: Entity)
    requires ConstrainOk(es, wagons) && Group(es, |es|, w) != []
    ensures w in wagons
    ensures forall k :: 0 <= k < |Group(es, |es|, w)| ==> Group(es, |es|, w)[k] < |es| && es[Group(es, |es|, w)[k]].bogie.isLeading.Some?
    ensures LastWithRole(es, Group(es, |es|, w), true).Some? && LastWithRole(es, Group(es, |es|, w), false).Some?
  {
    var g := Group(es, |es|, w);
    assert es[g[0]].attachedTo == Some(w) && BogieOk(es, wagons, g[0]);
    forall k | 0 <= k < |g| ensures es[g[k]].bogie.isLeading.Some? {
      assert BogieOk(es, wagons, g[k]);
    }
    RoleFound(es, w, true);
    RoleFound(es, w, false);
  }

  /** The body of the per-wagon loop on the snapshot of the query: the
      wagon's last trailing bogie and its corrected state; every other bogie
      of the wagon keeps its state. */
  method ConstrainGroup(es: seq<BogieEntity>, wagons: map<Entity, Wagon>, distance: (Vec3, Vec3) -> real, w: Entity, g: seq<nat>)
    returns (trail: nat, moved: BogieEntity)
    requires ConstrainOk(es, wagons)
    requires g == Group(es, |es|, w) && g != []
    ensures trail < |es| && es[trail].attachedTo == Some(w)
    ensures moved == Constrained(es, wagons, distance, trail)
    ensures forall j | 0 <= j < |es| && es[j].attachedTo == Some(w) && j != trail :: Constrained(es, wagons, distance, j) == es[j]
  {
    GroupRoles(es, wagons, w);
    var wagon := wagons[w];
    var distanceBetweenBogies := wagon.distanceBetweenBogies;
    var leading, trailing := PickRoles(es, g);
    var lead := leading.value;
    trail := trailing.value;
    var currentDistance := distance(es[lead].transform.translation, es[trail].transform.translation);
    ConstrainedKeepsOthers(es, wagons, distance, w, trail);
    ConstrainedShiftsTrailing(es, wagons, distance, w, lead, trail);
    moved := ShiftTrailing(es[trail], currentDistance, distanceBetweenBogies);
  }

  /** constrain_attached_bogies over the attached bogies' query; the wagon
      groups are visited in an arbitrary order, as a HashMap yields them. */
  method ConstrainAttachedBogies(bogies: array<BogieEntity>, wagons: map<Entity, Wagon>, distance: (Vec3, Vec3) -> real)
    requires ConstrainOk(bogies[..], wagons)
    modifies bogies
    ensures forall j :: 0 <= j < bogies.Length ==> bogies[j] == Constrained(old(bogies[..]), wagons, distance, j)
  {
    var es := bogies[..];
    var bogiePairs := GroupByWagon(es);
    var remaining := bogiePairs.Keys;
    while remaining != {}
      invariant remaining <= bogiePairs.Keys
      invariant forall j :: 0 <= j < bogies.Length ==>
        bogies[j] == if es[j].attachedTo.Some? && es[j].attachedTo.value !in remaining then Constrained(es, wagons, distance, j) else es[j]
      decreases |remaining|
    {
      var w :| w in remaining;
      var trail, moved := ConstrainGroup(es, wagons, distance, w, bogiePairs[w]);
      bogies[trail] := moved;
      remaining := remaining - {w};
    }
    forall j | 0 <= j < bogies.Length
      ensures bogies[j] == Constrained(es, wagons, distance, j)
    {
      if es[j].attachedTo.Some? {
        var w := es[j].attachedTo.value;
        assert j in Group(es, |es|, w);
      }
    }
  }
}
