/** The lowest-slope node search of src/world/route_gen.rs
    (find_next_path_node, calc_absolute_slope) and src/road_generator.rs
    (the scan of init_line_points, calc_absolute_slope): candidate nodes lie
    one node length from the start in each direction of an angle range, and
    the first candidate with the strictly least slope below 1000 is chosen. */
module SlopeScan {
  import opened Common
  import opened Argmin

  /** The "arbitrarily large" initial minimum slope. */
  const SLOPE_BOUND: real := 1000.0

  /** calc_absolute_slope: `|(h2 - h1) / dist|`. A zero distance gives an
      infinite or NaN slope, None here: such a slope fails every `<`. */
  function CalcAbsoluteSlope(dist: real, h1: real, h2: real): (r: Option<real>)
    ensures r.None? <==> dist == 0.0
    ensures r.Some? ==> r.value >= 0.0 && r.value * Abs(dist) == Abs(h2 - h1)
  {
    if dist == 0.0 then None
    else
      AbsQuotient(h2 - h1, dist);
      Some(Abs((h2 - h1) / dist))
  }

  lemma AbsQuotient(x: real, d: real)
    requires d != 0.0
    ensures Abs(x / d) * Abs(d) == Abs(x)
  {
    assert (x / d) * d == x;
    if d < 0.0 {
      assert Abs(x / d) * Abs(d) == Abs(x / d) * (-d);
    }
  }

  /** The angles of `(lo..hi + 1).step_by(step)`: lo, lo + step, ... while at most hi. */
  function Angles(lo: int, hi: int, step: nat): seq<int>
    requires step >= 1
    decreases hi - lo + 1
  {
    if lo > hi then [] else [lo] + Angles(lo + step, hi, step)
  }

  /** Candidate `k` is `lo + k*step`, never above `hi`, and the next one
      would be: `(hi - lo) / step + 1` candidates in all. */
  lemma {:induction false} AnglesShape(lo: int, hi: int, step: nat)
    requires step >= 1
    ensures |Angles(lo, hi, step)| == if lo > hi then 0 else (hi - lo) / step + 1
    ensures forall k :: 0 <= k < |Angles(lo, hi, step)| ==>
      Angles(lo, hi, step)[k] == lo + k * step && Angles(lo, hi, step)[k] <= hi
    ensures lo + |Angles(lo, hi, step)| * step > hi
    decreases hi - lo + 1
  {
    if lo <= hi {
      var rest := Angles(lo + step, hi, step);
      AnglesShape(lo + step, hi, step);
      if lo + step <= hi {
        SubOneStep(hi - lo, step);
      }
      forall k | 0 < k < |Angles(lo, hi, step)|
        ensures Angles(lo, hi, step)[k] == lo + k * step
      {
        assert Angles(lo, hi, step)[k] == rest[k - 1];
        StepTimes(k - 1, step);
      }
      StepTimes(|rest|, step);
    }
  }

  lemma SubOneStep(d: int, step: nat)
    requires step >= 1 && d >= step
    ensures (d - step) / step + 1 == d / step
  {
    var q, r := d / step, d % step;
    assert d == q * step + r;
    assert d - step == (q - 1) * step + r by { StepTimes(q - 1, step); }
    DivUnique(d - step, step, q - 1, r);
  }

  lemma DivUnique(n: int, step: nat, q: int, r: int)
    requires step >= 1 && n == q * step + r && 0 <= r < step
    ensures n / step == q
  {
    var q2, r2 := n / step, n % step;
    assert n == q2 * step + r2;
    if q2 > q {
      MulMonoStep(q + 1, q2, step);
    } else if q2 < q {
      MulMonoStep(q2 + 1, q, step);
    }
  }

  lemma MulMonoStep(a: int, b: int, step: nat)
    requires a <= b
    ensures a * step <= b * step
  {
  }

  lemma StepTimes(k: int, step: nat)
    ensures step + k * step == (k + 1) * step
  {
  }

  /** The route's initial scan `-180..=180` in steps of 5 has 73 candidates. */
  lemma FullTurnCandidates()
    ensures |Angles(-180, 180, 5)| == 73
  {
    AnglesShape(-180, 180, 5);
  }

  /** The opaque calculations behind one candidate: `height` is the
      heightmap, `direction(deg)` the unit vector (cos, sin) of an angle in
      degrees and `distance` the Euclidean distance of two points. */
  datatype Landscape = Landscape(height: (real, real) -> real, direction: int -> Vec2, distance: (Vec2, Vec2) -> real)

  /** The candidate at angle `deg`: `length * (cos, sin) + start`. */
  function CandidatePos(land: Landscape, start: Vec2, length: real, deg: int): Vec2 {
    var dir := land.direction(deg);
    Vec2(length * dir.x, length * dir.y).Plus(start)
  }

  /** The candidate node: its position with the terrain height there. */
  function CandidateNode(land: Landscape, start: Vec2, length: real, deg: int): Vec3 {
    var p := CandidatePos(land, start, length, deg);
    Vec3(p.x, land.height(p.x, p.y), p.y)
  }

  /** The candidate's slope measured against `baseHeight`. */
  function CandidateSlope(land: Landscape, start: Vec2, baseHeight: real, length: real, deg: int): Option<real> {
    var p := CandidatePos(land, start, length, deg);
    CalcAbsoluteSlope(land.distance(p, start), baseHeight, land.height(p.x, p.y))
  }

  /** The value the strict `<` against the running minimum sees: an
      infinite or NaN slope is ranked at the bound, which never wins. */
  function SlopeKey(s: Option<real>): real {
    if s.Some? then s.value else SLOPE_BOUND
  }

  /** The ranked slopes of the candidates at `angles`, in order. */
  function Slopes(land: Landscape, start: Vec2, baseHeight: real, length: real, angles: seq<int>): (r: seq<real>)
    ensures |r| == |angles|
  {
    seq(|angles|, k requires 0 <= k < |angles| => SlopeKey(CandidateSlope(land, start, baseHeight, length, angles[k])))
  }

  /** The node the scan settles on: the first strictly least slope below the
      bound, or the zero vector when no slope is below it. */
  function ScanResult(land: Landscape, start: Vec2, baseHeight: real, length: real, angles: seq<int>): Vec3 {
    match FirstMinBelow(Slopes(land, start, baseHeight, length, angles), SLOPE_BOUND)
    case Some(k) => CandidateNode(land, start, length, angles[k])
    case None => ZERO3
  }

  /** The chosen node is the zero vector if no candidate's slope is below the
      bound; otherwise it is the candidate of the first least slope, which is
      a finite slope below the bound. */
  lemma ScanResultSpec(land: Landscape, start: Vec2, baseHeight: real, length: real, angles: seq<int>)
    ensures var slopes := Slopes(land, start, baseHeight, length, angles);
      && ((forall i :: 0 <= i < |slopes| ==> slopes[i] >= SLOPE_BOUND) ==> ScanResult(land, start, baseHeight, length, angles) == ZERO3)
      && (forall k :: IsFirstMin(slopes, SLOPE_BOUND, k) ==>
            && ScanResult(land, start, baseHeight, length, angles) == CandidateNode(land, start, length, angles[k])
            && CandidateSlope(land, start, baseHeight, length, angles[k]).Some?)
  {
    FirstMinBelowSpec(Slopes(land, start, baseHeight, length, angles), SLOPE_BOUND);
  }

  /** What the scan knows after visiting `visited`: `best` is the first least
      slope so far, `result` its node and `currentMin` its slope, or the zero
      vector and the bound when there is none. */
  ghost predicate ScanState(land: Landscape, start: Vec2, baseHeight: real, length: real,
                            visited: seq<int>, best: Option<nat>, result: Vec3, currentMin: real)
  {
    var slopes := Slopes(land, start, baseHeight, length, visited);
    && best == FirstMinBelow(slopes, SLOPE_BOUND)
    && (best.Some? ==>
          && best.value < |visited|
          && result == CandidateNode(land, start, length, visited[best.value])
          && currentMin == slopes[best.value])
    && (best.None? ==> result == ZERO3 && currentMin == SLOPE_BOUND)
  }

  /** Visiting one more angle keeps ScanState, taking the new candidate
      exactly when its slope is strictly below the running minimum. */
  lemma ScanStep(land: Landscape, start: Vec2, baseHeight: real, length: real,
                 visited: seq<int>, best: Option<nat>, result: Vec3, currentMin: real, deg: int)
    requires ScanState(land, start, baseHeight, length, visited, best, result, currentMin)
    ensures var s := CandidateSlope(land, start, baseHeight, length, deg);
      if s.Some? && s.value < currentMin
      then ScanState(land, start, baseHeight, length, visited + [deg], Some(|visited|), CandidateNode(land, start, length, deg), s.value)
      else ScanState(land, start, baseHeight, length, visited + [deg], best, result, currentMin)
  {
    var next := visited + [deg];
    assert Slopes(land, start, baseHeight, length, next)[..|visited|] == Slopes(land, start, baseHeight, length, visited);
  }

  /** The end state of the scan is ScanResult. */
  lemma ScanDone(land: Landscape, start: Vec2, baseHeight: real, length: real,
                 visited: seq<int>, best: Option<nat>, result: Vec3, currentMin: real)
    requires ScanState(land, start, baseHeight, length, visited, best, result, currentMin)
    ensures result == ScanResult(land, start, baseHeight, length, visited)
  {
  }

  /** The scan loop: for each angle of `(lo..hi + 1).step_by(step)`, keep the
      candidate whose slope is strictly below the running minimum. */
  method LowestSlopeNode(land: Landscape, start: Vec2, baseHeight: real, length: real, lo: int, hi: int, step: nat)
    returns (result: Vec3)
    requires step >= 1
    ensures result == ScanResult(land, start, baseHeight, length, Angles(lo, hi, step))
  {
    result := ZERO3;
    var currentMinSlope := SLOPE_BOUND;
    ghost var visited: seq<int> := [];
    ghost var best: Option<nat> := None;
    var angleDeg := lo;
    while angleDeg <= hi
      invariant Angles(lo, hi, step) == visited + Angles(angleDeg, hi, step)
      invariant ScanState(land, start, baseHeight, length, visited, best, result, currentMinSlope)
      decreases hi - angleDeg
    {
      var thisPos := CandidatePos(land, start, length, angleDeg);
      var heightHere := land.height(thisPos.x, thisPos.y);
      var slope := CalcAbsoluteSlope(land.distance(thisPos, start), baseHeight, heightHere);
      ScanStep(land, start, baseHeight, length, visited, best, result, currentMinSlope, angleDeg);
      if slope.Some? && slope.value < currentMinSlope {
        currentMinSlope := slope.value;
        result := Vec3(thisPos.x, heightHere, thisPos.y);
        best := Some(|visited|);
      }
      visited := visited + [angleDeg];
      angleDeg := angleDeg + step;
    }
    assert visited == Angles(lo, hi, step);
    ScanDone(land, start, baseHeight, length, visited, best, result, currentMinSlope);
  }
}
