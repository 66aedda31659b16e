/** src/world/utils.rs: the closest keyed element to a parameter value. */
module WorldUtils {
  import opened Common
  import opened Argmin

  /** The distances |t - key| of a keyed list, in order. */
  function KeyDiffs<T>(v: seq<(real, T)>, t: real): (d: seq<real>)
    ensures |d| == |v|
    ensures forall i :: 0 <= i < |v| ==> d[i] == Abs(t - v[i].0)
  {
    seq(|v|, i requires 0 <= i < |v| => Abs(t - v[i].0))
  }

  /** get_closest: the first element whose key is nearest to `t` among those
      nearer than `tMax`, with its index and whether its key overestimates `t`. */
  method GetClosest<T>(t: real, tMax: real, v: seq<(real, T)>) returns (r: Option<(nat, (real, T), bool)>)
    ensures r.None? <==> forall i :: 0 <= i < |v| ==> Abs(t - v[i].0) >= tMax
    ensures r.Some? ==>
      && IsFirstMin(KeyDiffs(v, t), tMax, r.value.0)
      && r.value.1 == v[r.value.0]
      && Abs(t - r.value.1.0) < tMax
      && (r.value.2 <==> r.value.1.0 > t)
  {
    ghost var diffs := KeyDiffs(v, t);
    var closestObj: Option<(real, T)> := None;
    var closestIndex: nat := 0;
    var smallestDiff := tMax;
    for i := 0 to |v|
      invariant FirstMinBelow(diffs[..i], tMax) == (if closestObj.Some? then Some(closestIndex) else None)
      invariant closestObj.Some? ==> closestIndex < i && closestObj.value == v[closestIndex] && smallestDiff == diffs[closestIndex]
      invariant closestObj.None? ==> smallestDiff == tMax
    {
      var diff := Abs(t - v[i].0);
      assert diffs[..i + 1][..i] == diffs[..i];
      if diff < smallestDiff {
        closestIndex := i;
        closestObj := Some(v[i]);
        smallestDiff := diff;
      }
    }
    assert diffs[..|v|] == diffs;
    FirstMinBelowSpec(diffs, tMax);
    if closestObj.Some? {
      var isOverestimate := closestObj.value.0 > t;
      r := Some((closestIndex, closestObj.value, isOverestimate));
    } else {
      r := None;
    }
  }
}
