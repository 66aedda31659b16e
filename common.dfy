/** Value types shared by the whole model: optional values, the engine's
    vector and quaternion types over exact reals, and small helpers. */
module Common {

  datatype Option<T> = None | Some(value: T)

  /** A 2D vector (glam's Vec2). */
  datatype Vec2 = Vec2(x: real, y: real) {
    function Plus(o: Vec2): Vec2 { Vec2(x + o.x, y + o.y) }
  }

  /** A 3D vector (glam's Vec3). */
  datatype Vec3 = Vec3(x: real, y: real, z: real) {
    function Plus(o: Vec3): Vec3 { Vec3(x + o.x, y + o.y, z + o.z) }
    function Minus(o: Vec3): Vec3 { Vec3(x - o.x, y - o.y, z - o.z) }
    function Times(k: real): Vec3 { Vec3(x * k, y * k, z * k) }
  }

  /** A mesh asset handle (Handle<Mesh>), named by the asset store. */
  type Handle = nat

  const ZERO3: Vec3 := Vec3(0.0, 0.0, 0.0)

  /** A rotation (glam's Quat); only ever handed to opaque operations. */
  datatype Quat = Quat(x: real, y: real, z: real, w: real)

  function Cross(a: Vec3, b: Vec3): Vec3 {
    Vec3(a.y * b.z - a.z * b.y, a.z * b.x - a.x * b.z, a.x * b.y - a.y * b.x)
  }

  /** glam's Vec3::lerp: `a + (b - a) * f`. */
  function Lerp(a: Vec3, b: Vec3, f: real): Vec3 {
    a.Plus(b.Minus(a).Times(f))
  }

  function Abs(x: real): real {
    if x < 0.0 then -x else x
  }

  /** The sequence in the opposite order (Vec::reverse). */
  function Reversed<T>(s: seq<T>): (r: seq<T>)
    ensures |r| == |s|
    ensures forall i :: 0 <= i < |s| ==> r[i] == s[|s| - 1 - i]
  {
    seq(|s|, i requires 0 <= i < |s| => s[|s| - 1 - i])
  }

  /** No element occurs twice. */
  ghost predicate NoDup<T>(s: seq<T>) {
    forall x | x in s :: multiset(s)[x] == 1
  }

  /** A sub-multiset of a duplicate-free sequence is duplicate-free. */
  lemma NoDupSub<T>(a: seq<T>, b: seq<T>)
    requires NoDup(b) && multiset(a) <= multiset(b)
    ensures NoDup(a)
  {
    forall x | x in a ensures multiset(a)[x] == 1 {
      assert multiset(a)[x] <= multiset(b)[x];
    }
  }

  /** The two halves of a duplicate-free concatenation share no element. */
  lemma NoDupDisjoint<T>(a: seq<T>, b: seq<T>, x: T)
    requires NoDup(a + b) && x in a
    ensures x !in b
  {
    assert multiset(a + b) == multiset(a) + multiset(b);
    assert multiset(a + b)[x] == 1;
  }

  /** In a duplicate-free sequence an element does not occur before its own position. */
  lemma NoDupNotBefore<T>(s: seq<T>, j: nat)
    requires NoDup(s) && j < |s|
    ensures s[j] !in s[..j]
  {
    assert s == s[..j] + s[j..];
    assert s[j] in s[j..];
    if s[j] in s[..j] {
      NoDupDisjoint(s[..j], s[j..], s[j]);
    }
  }
}
