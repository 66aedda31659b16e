/** The "first strict minimum below a bound" selection that several loops of
    the program perform: a running minimum starts at a bound and is replaced
    only by a strictly smaller value, so the earliest minimal value wins ties
    and nothing at or above the bound is ever chosen. */
module Argmin {
  import opened Common

  /** The index such a scan over `vals` ends with, or None when no value is
      below `bound`. Defined by the scan itself, one value at a time. */
  function FirstMinBelow(vals: seq<real>, bound: real): (r: Option<nat>)
    ensures r.Some? ==> r.value < |vals| && vals[r.value] < bound
    decreases |vals|
  {
    if vals == [] then None
    else
      var prev := FirstMinBelow(vals[..|vals| - 1], bound);
      var best := if prev.Some? then vals[prev.value] else bound;
      if vals[|vals| - 1] < best then Some(|vals| - 1) else prev
  }

  /** `k` is the first index holding the least value, and that value is below `bound`. */
  ghost predicate IsFirstMin(vals: seq<real>, bound: real, k: int) {
    && 0 <= k < |vals|
    && vals[k] < bound
    && (forall i :: 0 <= i < k ==> vals[i] > vals[k])
    && (forall i :: k < i < |vals| ==> vals[i] >= vals[k])
  }

  /** The scan finds nothing exactly when every value is at or above the bound,
      and otherwise finds exactly the first minimal index. */
  lemma {:induction false} FirstMinBelowSpec(vals: seq<real>, bound: real)
    ensures FirstMinBelow(vals, bound).None? <==> (forall i :: 0 <= i < |vals| ==> vals[i] >= bound)
    ensures forall k :: IsFirstMin(vals, bound, k) <==> FirstMinBelow(vals, bound) == Some(k)
    decreases |vals|
  {
    if vals != [] {
      var n := |vals| - 1;
      var front := vals[..n];
      FirstMinBelowSpec(front, bound);
      assert forall i :: 0 <= i < n ==> front[i] == vals[i];
      var prev := FirstMinBelow(front, bound);
      if prev.Some? {
        assert IsFirstMin(front, bound, prev.value);
      }
      forall k | IsFirstMin(vals, bound, k)
        ensures FirstMinBelow(vals, bound) == Some(k)
      {
        if k < n {
          assert IsFirstMin(front, bound, k);
        }
      }
    }
  }

  /** Whatever the first minimum is, every value is at least the chosen one. */
  lemma FirstMinIsMinimal(vals: seq<real>, bound: real, k: nat, i: nat)
    requires FirstMinBelow(vals, bound) == Some(k)
    requires i < |vals|
    ensures vals[k] <= vals[i]
  {
    FirstMinBelowSpec(vals, bound);
    assert IsFirstMin(vals, bound, k);
  }
}
