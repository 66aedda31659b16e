/** Chunk-grid arithmetic common to both terrain streamers: a chunk
    coordinate is `floor((p + S/2) / S)` per axis, chunk `c` has its corner at
    `c*S - S/2`, and the streamers test coordinates against square windows
    around the viewpoint's chunk. */
module ChunkMath {

  /** An integer chunk coordinate (the source keeps these in a Vec2 or IVec2). */
  datatype ChunkPos = ChunkPos(x: int, y: int)

  /** `floor((p + size/2) / size)`: the chunk that world coordinate `p` lies in,
      i.e. `p / size` rounded to the nearest integer, halves rounding up. */
  function ChunkCoord(p: real, size: real): (c: int)
    requires size > 0.0
    ensures c as real <= p / size + 0.5 < c as real + 1.0
  {
    HalfShift(p, size);
    ((p + size / 2.0) / size).Floor
  }

  lemma DivAdd(x: real, y: real, k: real)
    requires k > 0.0
    ensures (x + y) / k == x / k + y / k
  {
  }

  lemma HalfDiv(k: real)
    requires k > 0.0
    ensures (k / 2.0) / k == 0.5
  {
  }

  lemma HalfShift(p: real, k: real)
    requires k > 0.0
    ensures (p + k / 2.0) / k == p / k + 0.5
  {
    DivAdd(p, k / 2.0, k);
    HalfDiv(k);
  }

  lemma DivLe(a: real, b: real, k: real)
    requires a <= b && k > 0.0
    ensures a / k <= b / k
  {
  }

  lemma MulDiv(x: real, k: real)
    requires k > 0.0
    ensures (x * k) / k == x
  {
  }

  /** The rounding bound determines the chunk coordinate uniquely. */
  lemma ChunkCoordUnique(p: real, size: real, c: int)
    requires size > 0.0
    requires c as real <= p / size + 0.5 < c as real + 1.0
    ensures ChunkCoord(p, size) == c
  {
  }

  /** World coordinate of a chunk's corner: `c*size - size/2`. */
  function ChunkCorner(c: int, size: real): real {
    (c as real) * size - size / 2.0
  }

  /** A chunk placed at its corner is recovered as the same chunk. */
  lemma CornerRoundTrip(c: int, size: real)
    requires size > 0.0
    ensures ChunkCoord(ChunkCorner(c, size), size) == c
  {
    assert ChunkCorner(c, size) + size / 2.0 == (c as real) * size;
    assert (c as real) * size / size == c as real;
  }

  /** `p` is a coordinate of the closed square `[center - r, center + r]²`. */
  predicate InClosedWindow(p: ChunkPos, center: ChunkPos, r: int) {
    && center.x - r <= p.x <= center.x + r
    && center.y - r <= p.y <= center.y + r
  }

  /** `p` is a coordinate of the half-open square `[center - r, center + r)²`
      that the generation loops `(c - r)..(c + r)` visit. */
  predicate InGenerationWindow(p: ChunkPos, center: ChunkPos, r: int) {
    && center.x - r <= p.x < center.x + r
    && center.y - r <= p.y < center.y + r
  }

  lemma FloorBetween(t: real, lo: int, hi: int)
    requires lo as real <= t <= hi as real
    ensures lo <= (t + 0.5).Floor <= hi
  {
  }

  /** A point `p` of the closed world box `[(c - r)*size, (c + r)*size]`
      lies in a chunk of the closed chunk window `[c - r, c + r]`. */
  lemma BoxPointInClosedWindow(p: real, c: int, r: int, size: real)
    requires size > 0.0
    requires ((c - r) as real) * size <= p <= ((c + r) as real) * size
    ensures c - r <= ChunkCoord(p, size) <= c + r
  {
    DivLe(((c - r) as real) * size, p, size);
    DivLe(p, ((c + r) as real) * size, size);
    MulDiv((c - r) as real, size);
    MulDiv((c + r) as real, size);
    FloorBetween(p / size, c - r, c + r);
    HalfShift(p, size);
  }
}
