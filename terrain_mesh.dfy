/** The grid-mesh builder and the smooth-normal accumulation that terrain.rs
    (mesh_data_from_noise, calculate_normals) and terrain_generator.rs
    (mesh_data_from_perlin, calculate_normals) both carry. The two copies of
    the builder differ only in the spacing of the vertices, which is a
    parameter here. */
module TerrainMesh {
  import opened Common

  /** Grid vertex (x, z): placed at (x*step, h, z*step), with `h` the height
      function sampled at that position shifted by the chunk offset. */
  function GridVertex(height: (real, real) -> real, step: nat, offset: Vec2, x: nat, z: nat): Vec3 {
    var px := (x * step) as real;
    var pz := (z * step) as real;
    Vec3(px, height(px + offset.x, pz + offset.y), pz)
  }

  /** The two triangles of the quad whose lower-left vertex is `v`. */
  function QuadIndices(v: nat, vx: nat): seq<nat> {
    [v, v + vx + 1, v + vx, v + vx + 1, v, v + 1]
  }

  /** The vertices row `z` emits for its first `x` columns. */
  function GridRow(height: (real, real) -> real, step: nat, offset: Vec2, z: nat, x: nat): seq<Vec3>
    decreases x
  {
    if x == 0 then [] else GridRow(height, step, offset, z, x - 1) + [GridVertex(height, step, offset, x - 1, z)]
  }

  /** The vertices of the first `z` rows, in emission order. */
  function GridRows(height: (real, real) -> real, step: nat, offset: Vec2, vx: nat, z: nat): seq<Vec3>
    decreases z
  {
    if z == 0 then [] else GridRows(height, step, offset, vx, z - 1) + GridRow(height, step, offset, z - 1, vx)
  }

  /** The indices row `z` (whose first vertex has index `base`) emits for its
      first `x` columns: a quad for every vertex not on the last column or row. */
  function IndexRow(vx: nat, vz: nat, z: nat, base: nat, x: nat): seq<nat>
    decreases x
  {
    if x == 0 then []
    else
      IndexRow(vx, vz, z, base, x - 1)
      + (if x - 1 < vx - 1 && z < vz - 1 then QuadIndices(base + x - 1, vx) else [])
  }

  /** The indices of the first `z` rows, in emission order. */
  function IndexRows(vx: nat, vz: nat, z: nat): seq<nat>
    decreases z
  {
    if z == 0 then [] else IndexRows(vx, vz, z - 1) + IndexRow(vx, vz, z - 1, (z - 1) * vx, vx)
  }

  lemma {:induction false} GridRowFacts(height: (real, real) -> real, step: nat, offset: Vec2, z: nat, x: nat)
    ensures |GridRow(height, step, offset, z, x)| == x
    ensures forall i :: 0 <= i < x ==> GridRow(height, step, offset, z, x)[i] == GridVertex(height, step, offset, i, z)
    decreases x
  {
    if x > 0 {
      GridRowFacts(height, step, offset, z, x - 1);
    }
  }

  /** The first `z` rows hold `z*vx` vertices. */
  lemma {:induction false} GridRowsLength(height: (real, real) -> real, step: nat, offset: Vec2, vx: nat, z: nat)
    ensures |GridRows(height, step, offset, vx, z)| == z * vx
    decreases z
  {
    if z > 0 {
      GridRowsLength(height, step, offset, vx, z - 1);
      GridRowFacts(height, step, offset, z - 1, vx);
      MulSucc(z - 1, vx);
    }
  }

  /** Vertex (c, r) sits at index `r*vx + c` of the first `z > r` rows. */
  lemma {:induction false} GridRowsAt(height: (real, real) -> real, step: nat, offset: Vec2, vx: nat, z: nat, r: nat, c: nat)
    requires r < z && c < vx
    ensures |GridRows(height, step, offset, vx, z)| == z * vx
    ensures r * vx + c < z * vx
    ensures GridRows(height, step, offset, vx, z)[r * vx + c] == GridVertex(height, step, offset, c, r)
    decreases z
  {
    var front := GridRows(height, step, offset, vx, z - 1);
    var row := GridRow(height, step, offset, z - 1, vx);
    assert GridRows(height, step, offset, vx, z) == front + row;
    GridRowsLength(height, step, offset, vx, z - 1);
    GridRowFacts(height, step, offset, z - 1, vx);
    MulSucc(z - 1, vx);
    MulSucc(r, vx);
    MulMono(r + 1, z, vx);
    if r < z - 1 {
      GridRowsAt(height, step, offset, vx, z - 1, r, c);
      assert (front + row)[r * vx + c] == front[r * vx + c];
    } else {
      assert |front| == r * vx;
      assert (front + row)[r * vx + c] == row[c];
    }
  }

  lemma MulSucc(a: nat, k: nat)
    ensures a * k + k == (a + 1) * k
  {
  }

  lemma MulMono(a: nat, b: nat, k: nat)
    requires a <= b
    ensures a * k <= b * k
  {
  }

  lemma {:induction false} IndexRowFacts(vx: nat, vz: nat, z: nat, base: nat, x: nat)
    requires 1 <= vx && x <= vx
    ensures |IndexRow(vx, vz, z, base, x)| == (if z < vz - 1 then 6 * (if x < vx - 1 then x else vx - 1) else 0)
    ensures forall i :: 0 <= i < |IndexRow(vx, vz, z, base, x)| ==> IndexRow(vx, vz, z, base, x)[i] < base + vx + vx
    decreases x
  {
    if x > 0 {
      IndexRowFacts(vx, vz, z, base, x - 1);
    }
  }

  /** The first `z` rows emit six indices per interior quad. */
  lemma {:induction false} IndexRowsLength(vx: nat, vz: nat, z: nat)
    requires 1 <= vx && 1 <= vz && z <= vz
    ensures |IndexRows(vx, vz, z)| == (vx - 1) * (if z < vz - 1 then z else vz - 1) * 6
    decreases z
  {
    if z > 0 {
      IndexRowsLength(vx, vz, z - 1);
      IndexRowFacts(vx, vz, z - 1, (z - 1) * vx, vx);
      if z - 1 < vz - 1 {
        MulSucc(z - 1, vx - 1);
        Times6(z - 1, vx - 1);
      }
    }
  }

  lemma Times6(a: nat, k: nat)
    ensures k * a * 6 + k * 6 == k * (a + 1) * 6
  {
  }

  /** Every index the first `z` rows emit names a vertex of the grid. */
  lemma {:induction false} IndexRowsBound(vx: nat, vz: nat, z: nat)
    requires 1 <= vx && 1 <= vz && z <= vz
    ensures forall i :: 0 <= i < |IndexRows(vx, vz, z)| ==> IndexRows(vx, vz, z)[i] < vx * vz
    decreases z
  {
    if z > 0 {
      IndexRowsBound(vx, vz, z - 1);
      var base := (z - 1) * vx;
      IndexRowFacts(vx, vz, z - 1, base, vx);
      var front := IndexRows(vx, vz, z - 1);
      var row := IndexRow(vx, vz, z - 1, base, vx);
      if z - 1 < vz - 1 {
        RowBaseBound(z - 1, vz, vx);
      }
      forall i | 0 <= i < |front + row|
        ensures (front + row)[i] < vx * vz
      {
        if i >= |front| {
          assert (front + row)[i] == row[i - |front|];
        }
      }
    }
  }

  /** The top-right corner of a quad in row `r < vz - 1` is a grid vertex. */
  lemma RowBaseBound(r: nat, vz: nat, vx: nat)
    requires r + 1 < vz
    ensures r * vx + vx + vx <= vx * vz
  {
    MulSucc(r, vx);
    MulSucc(r + 1, vx);
    MulMono(r + 2, vz, vx);
  }

  /** The nested row loop of mesh_data_from_noise / mesh_data_from_perlin:
      `vx` by `vz` vertices and a quad of six indices for each vertex off the
      last column and row, both lists reversed at the end. */
  method BuildGrid(height: (real, real) -> real, step: nat, vx: nat, vz: nat, offset: Vec2)
    returns (vertices: seq<Vec3>, indices: seq<nat>)
    ensures vertices == Reversed(GridRows(height, step, offset, vx, vz))
    ensures indices == Reversed(IndexRows(vx, vz, vz))
  {
    var vs: seq<Vec3> := [];
    var idx: seq<nat> := [];
    var vertexIndex: nat := 0;
    for z := 0 to vz
      invariant vs == GridRows(height, step, offset, vx, z)
      invariant idx == IndexRows(vx, vz, z)
      invariant vertexIndex == z * vx
    {
      var row, rowIdx;
      row, rowIdx, vertexIndex := BuildRow(height, step, vx, vz, offset, z, vertexIndex);
      vs := vs + row;
      idx := idx + rowIdx;
      MulSucc(z, vx);
    }
    vertices := Reversed(vs);
    indices := Reversed(idx);
  }

  /** One pass of the inner loop: row `z`, whose first vertex has index `first`. */
  method BuildRow(height: (real, real) -> real, step: nat, vx: nat, vz: nat, offset: Vec2, z: nat, first: nat)
    returns (row: seq<Vec3>, rowIdx: seq<nat>, next: nat)
    ensures row == GridRow(height, step, offset, z, vx)
    ensures rowIdx == IndexRow(vx, vz, z, first, vx)
    ensures next == first + vx
  {
    row, rowIdx := [], [];
    var vertexIndex := first;
    for x := 0 to vx
      invariant row == GridRow(height, step, offset, z, x)
      invariant rowIdx == IndexRow(vx, vz, z, first, x)
      invariant vertexIndex == first + x
    {
      var px := (x * step) as real;
      var pz := (z * step) as real;
      var elevation := height(px + offset.x, pz + offset.y);
      row := row + [Vec3(px, elevation, pz)];
      if x < vx - 1 && z < vz - 1 {
        rowIdx := rowIdx + [vertexIndex, vertexIndex + vx + 1, vertexIndex + vx, vertexIndex + vx + 1, vertexIndex, vertexIndex + 1];
      }
      vertexIndex := vertexIndex + 1;
    }
    next := vertexIndex;
  }

  /** Grid sizes and index bounds of a built grid: `vx*vz` vertices, with
      vertex (x, z) at reversed position `z*vx + x`, and `(vx-1)*(vz-1)*6`
      indices, each naming one of the vertices. */
  lemma GridShape(height: (real, real) -> real, step: nat, vx: nat, vz: nat, offset: Vec2)
    requires 1 <= vx && 1 <= vz
    ensures |Reversed(GridRows(height, step, offset, vx, vz))| == vx * vz
    ensures |Reversed(IndexRows(vx, vz, vz))| == (vx - 1) * (vz - 1) * 6
    ensures AllBelow(Reversed(IndexRows(vx, vz, vz)), vx * vz)
  {
    GridRowsLength(height, step, offset, vx, vz);
    IndexRowsLength(vx, vz, vz);
    IndexRowsBound(vx, vz, vz);
  }

  /** Vertex (x, z) of a built grid sits at position `vx*vz - 1 - (z*vx + x)`
      of the reversed list. */
  lemma GridVertexAt(height: (real, real) -> real, step: nat, vx: nat, vz: nat, offset: Vec2, x: nat, z: nat)
    requires x < vx && z < vz
    ensures |Reversed(GridRows(height, step, offset, vx, vz))| == vx * vz
    ensures z * vx + x < vx * vz
    ensures Reversed(GridRows(height, step, offset, vx, vz))[vx * vz - 1 - (z * vx + x)] == GridVertex(height, step, offset, x, z)
  {
    GridRowsLength(height, step, offset, vx, vz);
    GridRowsAt(height, step, offset, vx, vz, z, x);
  }

  /** A reversed `vx` by `vz` grid mesh: `vx*vz` vertices, vertex (x, z)
      at position `vx*vz - 1 - (z*vx + x)`, and `(vx-1)*(vz-1)*6` indices,
      each naming one of the vertices. */
  ghost predicate IsGridMesh(vertices: seq<Vec3>, indices: seq<nat>, height: (real, real) -> real,
                             step: nat, vx: nat, vz: nat, offset: Vec2)
  {
    && |indices| == (vx - 1) * (vz - 1) * 6
    && AllBelow(indices, vx * vz)
    && GridVertices(vertices, height, step, vx, vz, offset)
  }

  /** Every index names one of `n` vertices. */
  ghost predicate AllBelow(indices: seq<nat>, n: nat) {
    forall i :: 0 <= i < |indices| ==> indices[i] < n
  }

  /** Vertex (x, z) of a `vx` by `vz` grid sits at `vx*vz - 1 - (z*vx + x)`. */
  ghost predicate GridVertices(vertices: seq<Vec3>, height: (real, real) -> real, step: nat, vx: nat, vz: nat, offset: Vec2)
  {
    && |vertices| == vx * vz
    && (forall x, z :: 0 <= x < vx && 0 <= z < vz ==> VertexAt(vertices, height, step, vx, vz, offset, x, z))
  }

  /** Vertex (x, z) sits at position `vx*vz - 1 - (z*vx + x)`. */
  ghost predicate VertexAt(vertices: seq<Vec3>, height: (real, real) -> real, step: nat, vx: nat, vz: nat, offset: Vec2, x: nat, z: nat) {
    z * vx + x < vx * vz <= |vertices| && vertices[vx * vz - 1 - (z * vx + x)] == GridVertex(height, step, offset, x, z)
  }

  /** What BuildGrid returns is such a grid mesh. */
  lemma BuiltGridShape(height: (real, real) -> real, step: nat, vx: nat, vz: nat, offset: Vec2)
    requires 1 <= vx && 1 <= vz
    ensures IsGridMesh(Reversed(GridRows(height, step, offset, vx, vz)), Reversed(IndexRows(vx, vz, vz)), height, step, vx, vz, offset)
  {
    GridShape(height, step, vx, vz, offset);
    BuiltGridVertices(height, step, vx, vz, offset);
  }

  lemma BuiltGridVertices(height: (real, real) -> real, step: nat, vx: nat, vz: nat, offset: Vec2)
    ensures GridVertices(Reversed(GridRows(height, step, offset, vx, vz)), height, step, vx, vz, offset)
  {
    var vs := Reversed(GridRows(height, step, offset, vx, vz));
    GridRowsLength(height, step, offset, vx, vz);
    forall x, z | 0 <= x < vx && 0 <= z < vz
      ensures VertexAt(vs, height, step, vx, vz, offset, x, z)
    {
      GridVertexAt(height, step, vx, vz, offset, x, z);
    }
  }

  /** The cross product (B - A) x (C - A) of triangle `j`. */
  function TriangleCross(vertices: seq<Vec3>, indices: seq<nat>, j: nat): Vec3
    requires 3 * j + 2 < |indices|
    requires forall k :: 0 <= k < |indices| ==> indices[k] < |vertices|
  {
    var a := vertices[indices[3 * j]];
    var b := vertices[indices[3 * j + 1]];
    var c := vertices[indices[3 * j + 2]];
    Cross(b.Minus(a), c.Minus(a))
  }

  /** The three `+=` of one triangle, applied to the normals list in order. */
  function AddTriangle(s: seq<Vec3>, a: nat, b: nat, c: nat, n: Vec3): (r: seq<Vec3>)
    requires a < |s| && b < |s| && c < |s|
    ensures |r| == |s|
  {
    var s1 := s[a := s[a].Plus(n)];
    var s2 := s1[b := s1[b].Plus(n)];
    s2[c := s2[c].Plus(n)]
  }

  /** The normals list after the first `t` triangles of the accumulation loop. */
  function Accumulated(vertices: seq<Vec3>, indices: seq<nat>, t: nat): (r: seq<Vec3>)
    requires 3 * t <= |indices|
    requires forall k :: 0 <= k < |indices| ==> indices[k] < |vertices|
    ensures |r| == |vertices|
    decreases t
  {
    if t == 0 then seq(|vertices|, _ => ZERO3)
    else
      var j := t - 1;
      AddTriangle(Accumulated(vertices, indices, j), indices[3 * j], indices[3 * j + 1], indices[3 * j + 2],
                  TriangleCross(vertices, indices, j))
  }

  /** `n` when corner `i` is vertex `v`, zero otherwise. */
  function Hit(i: nat, v: nat, n: Vec3): Vec3 {
    if i == v then n else ZERO3
  }

  /** What triangle `j` adds to vertex `v`: its cross product once for each
      of its corners that is `v`. */
  function Contribution(vertices: seq<Vec3>, indices: seq<nat>, j: nat, v: nat): Vec3
    requires 3 * j + 2 < |indices|
    requires forall k :: 0 <= k < |indices| ==> indices[k] < |vertices|
  {
    var n := TriangleCross(vertices, indices, j);
    Hit(indices[3 * j], v, n).Plus(Hit(indices[3 * j + 1], v, n)).Plus(Hit(indices[3 * j + 2], v, n))
  }

  /** The sum, over the first `t` triangles, of the cross products of those incident to `v`. */
  function IncidentSum(vertices: seq<Vec3>, indices: seq<nat>, t: nat, v: nat): Vec3
    requires 3 * t <= |indices|
    requires forall k :: 0 <= k < |indices| ==> indices[k] < |vertices|
    decreases t
  {
    if t == 0 then ZERO3
    else IncidentSum(vertices, indices, t - 1, v).Plus(Contribution(vertices, indices, t - 1, v))
  }

  lemma UpdateAt(s: seq<Vec3>, i: nat, n: Vec3, v: nat)
    requires i < |s| && v < |s|
    ensures s[i := s[i].Plus(n)][v] == s[v].Plus(Hit(i, v, n))
  {
  }

  lemma AddTriangleAt(s: seq<Vec3>, a: nat, b: nat, c: nat, n: Vec3, v: nat)
    requires a < |s| && b < |s| && c < |s| && v < |s|
    ensures AddTriangle(s, a, b, c, n)[v] == s[v].Plus(Hit(a, v, n).Plus(Hit(b, v, n)).Plus(Hit(c, v, n)))
  {
    var s1 := s[a := s[a].Plus(n)];
    var s2 := s1[b := s1[b].Plus(n)];
    UpdateAt(s, a, n, v);
    UpdateAt(s1, b, n, v);
    UpdateAt(s2, c, n, v);
  }

  /** The in-place accumulation gives every vertex the sum of the cross
      products of the triangles incident to it. */
  lemma {:induction false} AccumulatedIsIncidentSum(vertices: seq<Vec3>, indices: seq<nat>, t: nat, v: nat)
    requires 3 * t <= |indices|
    requires forall k :: 0 <= k < |indices| ==> indices[k] < |vertices|
    requires v < |vertices|
    ensures Accumulated(vertices, indices, t)[v] == IncidentSum(vertices, indices, t, v)
    decreases t
  {
    if t > 0 {
      var j := t - 1;
      AccumulatedIsIncidentSum(vertices, indices, j, v);
      var prev := Accumulated(vertices, indices, j);
      var n := TriangleCross(vertices, indices, j);
      var a, b, c := indices[3 * j], indices[3 * j + 1], indices[3 * j + 2];
      assert Accumulated(vertices, indices, t) == AddTriangle(prev, a, b, c, n);
      AddTriangleAt(prev, a, b, c, n, v);
      assert Contribution(vertices, indices, j, v) == Hit(a, v, n).Plus(Hit(b, v, n)).Plus(Hit(c, v, n));
    }
  }

  lemma AccumulatedStep(vertices: seq<Vec3>, indices: seq<nat>, t: nat)
    requires 3 * t + 3 <= |indices|
    requires forall k :: 0 <= k < |indices| ==> indices[k] < |vertices|
    ensures Accumulated(vertices, indices, t + 1)
         == AddTriangle(Accumulated(vertices, indices, t), indices[3 * t], indices[3 * t + 1], indices[3 * t + 2],
                        TriangleCross(vertices, indices, t))
  {
  }

  /** The three `+=` of one triangle on the normals buffer. */
  method AddInPlace(acc: array<Vec3>, a: nat, b: nat, c: nat, n: Vec3)
    requires a < acc.Length && b < acc.Length && c < acc.Length
    modifies acc
    ensures acc[..] == AddTriangle(old(acc[..]), a, b, c, n)
  {
    ghost var s0 := acc[..];
    acc[a] := acc[a].Plus(n);
    ghost var s1 := acc[..];
    assert s1 == s0[a := s0[a].Plus(n)];
    acc[b] := acc[b].Plus(n);
    ghost var s2 := acc[..];
    assert s2 == s1[b := s1[b].Plus(n)];
    acc[c] := acc[c].Plus(n);
    assert acc[..] == s2[c := s2[c].Plus(n)];
  }

  /** calculate_normals: one normal per vertex, the normalised sum of the
      cross products of all triangles that contain it. Indices come in
      triples and name vertices (otherwise the source indexes out of bounds). */
  method CalculateNormals(vertices: seq<Vec3>, indices: seq<nat>, normalize: Vec3 -> Vec3)
    returns (normals: seq<Vec3>)
    requires |indices| % 3 == 0
    requires forall k :: 0 <= k < |indices| ==> indices[k] < |vertices|
    ensures |normals| == |vertices|
    ensures forall v :: 0 <= v < |vertices| ==>
      normals[v] == normalize(IncidentSum(vertices, indices, |indices| / 3, v))
  {
    var acc := AccumulateNormals(vertices, indices);
    ghost var total := acc[..];
    NormalizeInPlace(acc, normalize);
    normals := acc[..];
    forall v | 0 <= v < |vertices|
      ensures normals[v] == normalize(IncidentSum(vertices, indices, |indices| / 3, v))
    {
      assert normals[v] == normalize(total[v]);
      AccumulatedIsIncidentSum(vertices, indices, |indices| / 3, v);
    }
  }

  /** The first loop of calculate_normals: every triangle's cross product
      added to each of its three vertices. */
  method AccumulateNormals(vertices: seq<Vec3>, indices: seq<nat>) returns (acc: array<Vec3>)
    requires |indices| % 3 == 0
    requires forall k :: 0 <= k < |indices| ==> indices[k] < |vertices|
    ensures fresh(acc)
    ensures acc[..] == Accumulated(vertices, indices, |indices| / 3)
  {
    acc := new Vec3[|vertices|](_ => ZERO3);
    assert acc[..] == Accumulated(vertices, indices, 0);
    var i := 0;
    ghost var t: nat := 0;
    while i < |indices|
      invariant i == 3 * t && i <= |indices|
      invariant acc[..] == Accumulated(vertices, indices, t)
    {
      AccumulateTriangle(acc, vertices, indices, i, t);
      i := i + 3;
      t := t + 1;
    }
    ThirdOf(i, t);
  }

  lemma ThirdOf(n: nat, t: nat)
    requires n == 3 * t
    ensures n / 3 == t
  {
  }

  /** One iteration of that loop: triangle `t`, whose indices start at `i`. */
  method AccumulateTriangle(acc: array<Vec3>, vertices: seq<Vec3>, indices: seq<nat>, i: nat, ghost t: nat)
    requires i == 3 * t && i + 3 <= |indices|
    requires forall k :: 0 <= k < |indices| ==> indices[k] < |vertices|
    requires acc[..] == Accumulated(vertices, indices, t)
    modifies acc
    ensures acc[..] == Accumulated(vertices, indices, t + 1)
  {
    var a := indices[i];
    var b := indices[i + 1];
    var c := indices[i + 2];
    var edgeAB := vertices[b].Minus(vertices[a]);
    var edgeAC := vertices[c].Minus(vertices[a]);
    var cross := Cross(edgeAB, edgeAC);
    assert cross == TriangleCross(vertices, indices, t);
    AccumulatedStep(vertices, indices, t);
    AddInPlace(acc, a, b, c, cross);
  }

  /** The second loop of calculate_normals: each entry replaced by its
      normalised value. */
  method NormalizeInPlace(acc: array<Vec3>, normalize: Vec3 -> Vec3)
    modifies acc
    ensures forall w :: 0 <= w < acc.Length ==> acc[w] == normalize(old(acc[w]))
  {
    for v := 0 to acc.Length
      invariant forall w :: 0 <= w < v ==> acc[w] == normalize(old(acc[w]))
      invariant forall w :: v <= w < acc.Length ==> acc[w] == old(acc[w])
    {
      acc[v] := normalize(acc[v]);
    }
  }
}
