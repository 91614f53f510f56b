/** Vector algebra over exact reals, and the numeric primitives the globe code
    takes from JavaScript's `Math` object and THREE's `Vector3`.

    Square root, sine, cosine, arctangent and pi have no exact counterpart over
    the reals, so they are carried in a `Math` record of opaque functions. A
    property that relies on one of them says so with a precondition about the
    single value it uses (`SqrtAt`, `PythagoreanAt`), never with a blanket
    axiom. */
module Numerics {

  datatype Vec3 = Vec3(x: real, y: real, z: real)

  const Zero: Vec3 := Vec3(0.0, 0.0, 0.0)

  function Add(a: Vec3, b: Vec3): Vec3 {
    Vec3(a.x + b.x, a.y + b.y, a.z + b.z)
  }

  function Sub(a: Vec3, b: Vec3): Vec3 {
    Vec3(a.x - b.x, a.y - b.y, a.z - b.z)
  }

  function Scale(k: real, v: Vec3): Vec3 {
    Vec3(k * v.x, k * v.y, k * v.z)
  }

  function Dot(a: Vec3, b: Vec3): real {
    a.x * b.x + a.y * b.y + a.z * b.z
  }

  function Cross(a: Vec3, b: Vec3): Vec3 {
    Vec3(a.y * b.z - a.z * b.y, a.z * b.x - a.x * b.z, a.x * b.y - a.y * b.x)
  }

  /** Squared Euclidean norm. */
  function NormSq(v: Vec3): real {
    v.x * v.x + v.y * v.y + v.z * v.z
  }

  /** `a.clone().add(b).multiplyScalar(0.5)`: the midpoint of a chord. */
  function Midpoint(a: Vec3, b: Vec3): Vec3 {
    Scale(0.5, Add(a, b))
  }

  /** Two vectors point the same way: parallel, and not opposed. */
  predicate SameDirection(u: Vec3, v: Vec3) {
    Cross(u, v) == Zero && Dot(u, v) >= 0.0
  }

  /** The primitives of JavaScript's `Math` the code calls. */
  datatype Math = Math(
    pi: real,
    sqrt: real -> real,
    sin: real -> real,
    cos: real -> real,
    atan2: (real, real) -> real)

  /** `m.sqrt` is a true square root at `x`. */
  predicate SqrtAt(m: Math, x: real) {
    0.0 <= m.sqrt(x) && m.sqrt(x) * m.sqrt(x) == x
  }

  /** `sin(a)^2 + cos(a)^2 == 1` holds at the angle `a`. */
  predicate PythagoreanAt(m: Math, a: real) {
    m.sin(a) * m.sin(a) + m.cos(a) * m.cos(a) == 1.0
  }

  /** `Vector3.length()`. */
  function Length(m: Math, v: Vec3): real {
    m.sqrt(NormSq(v))
  }

  lemma NormSqNonNegative(v: Vec3)
    ensures NormSq(v) >= 0.0
  {
    SquarePositive(v.x);
    SquarePositive(v.y);
    SquarePositive(v.z);
  }

  lemma MulPositive(a: real, b: real)
    requires a > 0.0 && b > 0.0
    ensures a * b > 0.0
  {
  }

  lemma MulStrictMono(a: real, b: real, c: real)
    requires a > b && c > 0.0
    ensures a * c > b * c
  {
    MulPositive(a - b, c);
    assert (a - b) * c == a * c - b * c;
  }

  lemma SquarePositive(a: real)
    ensures a * a >= 0.0
    ensures a != 0.0 ==> a * a != 0.0
  {
    if a > 0.0 {
      MulPositive(a, a);
    } else if a < 0.0 {
      MulPositive(-a, -a);
    }
  }

  lemma NormSqScale(k: real, v: Vec3)
    ensures NormSq(Scale(k, v)) == k * k * NormSq(v)
  {
    assert (k * v.x) * (k * v.x) == k * k * (v.x * v.x);
    assert (k * v.y) * (k * v.y) == k * k * (v.y * v.y);
    assert (k * v.z) * (k * v.z) == k * k * (v.z * v.z);
  }

  lemma {:induction false} ScaleSameDirection(k: real, v: Vec3)
    requires k >= 0.0
    ensures SameDirection(Scale(k, v), v)
    ensures Dot(Scale(k, v), v) == k * NormSq(v)
  {
    NormSqNonNegative(v);
    CrossScaleSelf(k, v);
    DotScaleSelf(k, v);
    MulNonNegative(k, NormSq(v));
  }

  lemma NonZeroRoot(a: real, b: real)
    requires a * a == b && b != 0.0
    ensures a != 0.0
  {
  }

  lemma MulNonNegative(a: real, b: real)
    requires a >= 0.0 && b >= 0.0
    ensures a * b >= 0.0
  {
    if a > 0.0 && b > 0.0 {
      MulPositive(a, b);
    }
  }

  lemma DotScaleSelf(k: real, v: Vec3)
    ensures Dot(Scale(k, v), v) == k * NormSq(v)
  {
    assert (k * v.x) * v.x == k * (v.x * v.x);
    assert (k * v.y) * v.y == k * (v.y * v.y);
    assert (k * v.z) * v.z == k * (v.z * v.z);
  }

  lemma CrossScaleSelf(k: real, v: Vec3)
    ensures Cross(Scale(k, v), v) == Zero
  {
    assert (k * v.y) * v.z == k * (v.y * v.z);
    assert (k * v.z) * v.y == k * (v.y * v.z);
    assert (k * v.z) * v.x == k * (v.z * v.x);
    assert (k * v.x) * v.z == k * (v.z * v.x);
    assert (k * v.x) * v.y == k * (v.x * v.y);
    assert (k * v.y) * v.x == k * (v.x * v.y);
  }

  /** `Vector3.normalize()`: divides by the length; a zero length yields the
      zero vector, as THREE's `divideScalar(0)` does. */
  function Normalize(m: Math, v: Vec3): (u: Vec3)
    ensures SqrtAt(m, NormSq(v)) && NormSq(v) != 0.0 ==>
              NormSq(u) == 1.0 && SameDirection(u, v) && Dot(u, v) == Length(m, v)
  {
    var len := Length(m, v);
    var u := if len == 0.0 then Zero else Scale(1.0 / len, v);
    if SqrtAt(m, NormSq(v)) && NormSq(v) != 0.0 then
      NormalizeUnit(m, v);
      u
    else
      u
  }

  /** The zero vector (and any vector of length 0) normalises to zero
      instead of dividing by zero. */
  lemma NormalizeZero(m: Math, v: Vec3)
    requires SqrtAt(m, NormSq(v)) && NormSq(v) == 0.0
    ensures Normalize(m, v) == Zero
  {
    var len := Length(m, v);
    SquarePositive(len);
  }

  lemma NormalizeUnit(m: Math, v: Vec3)
    requires SqrtAt(m, NormSq(v)) && NormSq(v) != 0.0
    ensures var len := Length(m, v);
            len > 0.0 &&
            NormSq(Scale(1.0 / len, v)) == 1.0 &&
            SameDirection(Scale(1.0 / len, v), v) &&
            Dot(Scale(1.0 / len, v), v) == len
  {
    var len := Length(m, v);
    NormSqNonNegative(v);
    NonZeroRoot(len, NormSq(v));
    var k := 1.0 / len;
    assert k * len == 1.0;
    NormSqScale(k, v);
    assert k * k * NormSq(v) == (k * len) * (k * len);
    ScaleSameDirection(k, v);
    assert k * NormSq(v) == (k * len) * len;
  }

  /** `base.clone().add(unit(dir).multiplyScalar(k))`: the point `k` units
      from `base` along the direction of `dir`. Every control point of the
      flux arcs is built this way. */
  function Offset(m: Math, base: Vec3, dir: Vec3, k: real): (p: Vec3)
    ensures SqrtAt(m, NormSq(dir)) && NormSq(dir) != 0.0 ==>
              NormSq(Sub(p, base)) == k * k &&
              Cross(Sub(p, base), dir) == Zero &&
              Dot(Sub(p, base), dir) == k * Length(m, dir)
  {
    var u := Normalize(m, dir);
    var p := Add(base, Scale(k, u));
    assert Sub(p, base) == Scale(k, u);
    if SqrtAt(m, NormSq(dir)) && NormSq(dir) != 0.0 then
      NormSqScale(k, u);
      CrossScaleLeft(k, u, dir);
      DotScaleLeft(k, u, dir);
      p
    else
      p
  }

  /** `(k u) × v == k (u × v)`. */
  lemma CrossScaleLeft(k: real, u: Vec3, v: Vec3)
    ensures Cross(Scale(k, u), v) == Scale(k, Cross(u, v))
  {
    var su := Scale(k, u);
    var w := Cross(u, v);
    CrossComponent(k, su.y, u.y, v.z, su.z, u.z, v.y, w.x);
    CrossComponent(k, su.z, u.z, v.x, su.x, u.x, v.z, w.y);
    CrossComponent(k, su.x, u.x, v.y, su.y, u.y, v.x, w.z);
  }

  /** One component of `(k u) × v == k (u × v)`, with the scaled components
      `s = k a`, `t = k c` and the unscaled component `w = a b - c d` given
      by name. */
  lemma CrossComponent(k: real, s: real, a: real, b: real, t: real, c: real, d: real, w: real)
    requires s == k * a && t == k * c && w == a * b - c * d
    ensures s * b - t * d == k * w
  {
    assert s * b == k * (a * b);
    assert t * d == k * (c * d);
  }

  /** `(k u) · v == k (u · v)`. */
  lemma DotScaleLeft(k: real, u: Vec3, v: Vec3)
    ensures Dot(Scale(k, u), v) == k * Dot(u, v)
  {
    assert (k * u.x) * v.x + (k * u.y) * v.y + (k * u.z) * v.z == k * (u.x * v.x + u.y * v.y + u.z * v.z);
  }
}
