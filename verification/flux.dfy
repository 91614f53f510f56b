/** `Flux` (src/assets/js/flux.js): the control points of the Bézier arcs
    drawn between two places on the globe, and the splice that joins the two
    halves of the double-cubic arc.

    Evaluating a Bézier curve is THREE's business; `getPoints` is a parameter,
    and the only facts used about it are the ones stated by `Samples`: it
    returns `n + 1` points, the first and last being the curve's end control
    points. */
module Flux {
  import opened Numerics
  import opened Sphere

  /** `THREE.QuadraticBezierCurve3` / `THREE.CubicBezierCurve3`, by their
      control points. */
  datatype Bezier =
    | Quadratic(v0: Vec3, v1: Vec3, v2: Vec3)
    | Cubic(v0: Vec3, v1: Vec3, v2: Vec3, v3: Vec3)
  {
    function Start(): Vec3 {
      v0
    }

    function End(): Vec3 {
      if Quadratic? then v2 else v3
    }
  }

  /** Samples per cubic in `doubleCubicFlux`: `getPoints(50)`. */
  const Divisions: nat := 50

  /** `pts` is what sampling `c` with `n` divisions returns: `n + 1` points,
      starting and ending on the curve's end control points. */
  predicate Samples(pts: seq<Vec3>, c: Bezier, n: nat) {
    |pts| == n + 1 && pts[0] == c.Start() && pts[n] == c.End()
  }

  /** `Flux.coordToPoint`: the same projection as `GeoUtils.latLonToXyz`,
      so every arc starts and ends on the sphere. */
  function CoordToPoint(m: Math, mesh: Mesh, lat: real, lng: real): (p: Vec3)
    ensures TrigSound(m, lat, lng) ==>
              NormSq(Sub(p, mesh.position)) == mesh.radius * mesh.radius
  {
    LatLonToXyz(m, lat, lng, mesh)
  }

  /** Moving the mesh by `v` moves the projected point by exactly `v`. */
  lemma CoordToPointTranslation(m: Math, mesh: Mesh, lat: real, lng: real, v: Vec3)
    ensures CoordToPoint(m, mesh.(position := Add(mesh.position, v)), lat, lng)
         == Add(CoordToPoint(m, mesh, lat, lng), v)
  {
    LatLonToXyzTranslation(m, lat, lng, mesh, v);
  }

  /** `srcPoint.clone().sub(destPoint).length()`. */
  function ChordLength(m: Math, src: Vec3, dest: Vec3): real {
    Length(m, Sub(src, dest))
  }

  /** The point above the chord's midpoint at `height` from the centre, on
      the ray from the centre through that midpoint. When the end points are
      antipodal the chord's midpoint is the centre itself; THREE normalises
      that zero vector to zero, so the point stays on the centre
      (`AboveChordAntipodal`). */
  function AboveChord(m: Math, mesh: Mesh, src: Vec3, dest: Vec3, height: real): (c: Vec3)
    ensures var out := Sub(Midpoint(src, dest), mesh.position);
            SqrtAt(m, NormSq(out)) && NormSq(out) != 0.0 ==>
              && NormSq(Sub(c, mesh.position)) == height * height
              && Cross(Sub(c, mesh.position), out) == Zero
              && Dot(Sub(c, mesh.position), out) == height * Length(m, out)
  {
    Offset(m, mesh.position, Sub(Midpoint(src, dest), mesh.position), height)
  }

  /** For antipodal end points the chord's midpoint is the centre: the point
      above it is the centre itself, whatever the height. */
  lemma AboveChordAntipodal(m: Math, mesh: Mesh, src: Vec3, dest: Vec3, height: real)
    requires Sub(Midpoint(src, dest), mesh.position) == Zero
    ensures AboveChord(m, mesh, src, dest, height) == mesh.position
  {
    OffsetAlongZero(m, mesh.position, height);
  }

  /** Offsetting along the zero vector does not move the base. */
  lemma OffsetAlongZero(m: Math, base: Vec3, k: real)
    ensures Offset(m, base, Zero, k) == base
  {
    var len := Length(m, Zero);
    if len != 0.0 {
      assert Scale(1.0 / len, Zero) == Zero;
    }
    assert Normalize(m, Zero) == Zero;
    assert Scale(k, Zero) == Zero;
    assert Add(base, Zero) == base;
  }

  /** The control point of `quadraticFlux`: radius plus 0.7 chord lengths
      from the centre, straight above the chord's midpoint. */
  function QuadraticControl(m: Math, mesh: Mesh, src: Vec3, dest: Vec3): (c: Vec3)
    ensures var out := Sub(Midpoint(src, dest), mesh.position);
            var height := mesh.radius + ChordLength(m, src, dest) * 0.7;
            SqrtAt(m, NormSq(out)) && NormSq(out) != 0.0 ==>
              && NormSq(Sub(c, mesh.position)) == height * height
              && Cross(Sub(c, mesh.position), out) == Zero
              && Dot(Sub(c, mesh.position), out) == height * Length(m, out)
  {
    AboveChord(m, mesh, src, dest, mesh.radius + ChordLength(m, src, dest) * 0.7)
  }

  /** `quadraticFlux`: one quadratic curve from the source to the
      destination, pulled outward toward a control point that lies straight
      above the chord's midpoint, 0.7 chord lengths over the surface. */
  function QuadraticFlux(m: Math, mesh: Mesh, srcLat: real, srcLng: real, destLat: real, destLng: real): (c: Bezier)
    ensures c.Quadratic?
    ensures c.Start() == CoordToPoint(m, mesh, srcLat, srcLng)
    ensures c.End() == CoordToPoint(m, mesh, destLat, destLng)
    ensures TrigSound(m, srcLat, srcLng) ==> NormSq(Sub(c.v0, mesh.position)) == mesh.radius * mesh.radius
    ensures TrigSound(m, destLat, destLng) ==> NormSq(Sub(c.v2, mesh.position)) == mesh.radius * mesh.radius
    ensures var out := Sub(Midpoint(c.v0, c.v2), mesh.position);
            var height := mesh.radius + ChordLength(m, c.v0, c.v2) * 0.7;
            SqrtAt(m, NormSq(out)) && NormSq(out) != 0.0 ==>
              && NormSq(Sub(c.v1, mesh.position)) == height * height
              && Cross(Sub(c.v1, mesh.position), out) == Zero
              && Dot(Sub(c.v1, mesh.position), out) == height * Length(m, out)
    ensures Sub(Midpoint(c.v0, c.v2), mesh.position) == Zero ==> c.v1 == mesh.position
  {
    var srcPoint := CoordToPoint(m, mesh, srcLat, srcLng);
    var destPoint := CoordToPoint(m, mesh, destLat, destLng);
    var control := QuadraticControl(m, mesh, srcPoint, destPoint);
    if Sub(Midpoint(srcPoint, destPoint), mesh.position) == Zero then
      AboveChordAntipodal(m, mesh, srcPoint, destPoint, mesh.radius + ChordLength(m, srcPoint, destPoint) * 0.7);
      Quadratic(srcPoint, control, destPoint)
    else
      Quadratic(srcPoint, control, destPoint)
  }

  /** `c` lies `distance` from `endpoint` on the radial line through it, and
      `distance` farther from the centre than `endpoint`: pushed outward,
      not inward. Stated for an end point off the centre. */
  predicate PushedOutward(m: Math, mesh: Mesh, endpoint: Vec3, c: Vec3, distance: real) {
    var out := Sub(endpoint, mesh.position);
    SqrtAt(m, NormSq(out)) && NormSq(out) != 0.0 ==>
      && NormSq(Sub(c, endpoint)) == distance * distance
      && Cross(Sub(c, endpoint), out) == Zero
      && NormSq(Sub(c, mesh.position)) == (Length(m, out) + distance) * (Length(m, out) + distance)
  }

  /** A control point of `cubicFlux`: the end point pushed outward, away from
      the centre, by `distance`. */
  function CubicControl(m: Math, mesh: Mesh, endpoint: Vec3, distance: real): (c: Vec3)
    ensures PushedOutward(m, mesh, endpoint, c, distance)
  {
    var out := Sub(endpoint, mesh.position);
    var c := Offset(m, endpoint, out, distance);
    if SqrtAt(m, NormSq(out)) && NormSq(out) != 0.0 then
      CubicControlOutward(m, mesh, endpoint, distance);
      c
    else
      c
  }

  lemma CubicControlOutward(m: Math, mesh: Mesh, endpoint: Vec3, distance: real)
    requires var out := Sub(endpoint, mesh.position); SqrtAt(m, NormSq(out)) && NormSq(out) != 0.0
    ensures var out := Sub(endpoint, mesh.position);
            var c := Offset(m, endpoint, out, distance);
            NormSq(Sub(c, mesh.position)) == (Length(m, out) + distance) * (Length(m, out) + distance)
  {
    var out := Sub(endpoint, mesh.position);
    var len := Length(m, out);
    NonZeroRoot(len, NormSq(out));
    OffsetUnfold(m, endpoint, out, distance);
    PushedFromCentre(mesh.position, endpoint, 1.0 / len, len, distance);
  }

  /** Moving `endpoint` by `d` along `out / len`, where `out` is its offset
      from the centre and `len` the length of `out`, puts it `len + d` from
      the centre. */
  lemma PushedFromCentre(centre: Vec3, endpoint: Vec3, k: real, len: real, d: real)
    requires var out := Sub(endpoint, centre); len * len == NormSq(out)
    requires len != 0.0 && k == 1.0 / len
    ensures var out := Sub(endpoint, centre);
            NormSq(Sub(Add(endpoint, Scale(d, Scale(k, out))), centre)) == (len + d) * (len + d)
  {
    var out := Sub(endpoint, centre);
    var w := Scale(d, Scale(k, out));
    var f := 1.0 + d * k;
    ShiftBase(endpoint, centre, w);
    ScaleAdd(d, k, out);
    StretchedLength(len, d);
    StretchedNorm(Sub(Add(endpoint, w), centre), out, f, len, d);
  }

  /** A vector `f` times `out`, where `|out| == len` and `f len == len + d`,
      has length `len + d`. */
  lemma StretchedNorm(v: Vec3, out: Vec3, f: real, len: real, d: real)
    requires v == Scale(f, out)
    requires len * len == NormSq(out)
    requires f * len == len + d
    ensures NormSq(v) == (len + d) * (len + d)
  {
    ScaledNorm(f, out, len);
  }

  /** Along a direction of non-zero length, `Offset` adds `k` times the
      direction divided by its length. */
  lemma OffsetUnfold(m: Math, base: Vec3, dir: Vec3, k: real)
    requires Length(m, dir) != 0.0
    ensures Offset(m, base, dir, k) == Add(base, Scale(k, Scale(1.0 / Length(m, dir), dir)))
  {
  }

  /** `(e + w) - c == (e - c) + w`. */
  lemma ShiftBase(e: Vec3, c: Vec3, w: Vec3)
    ensures Sub(Add(e, w), c) == Add(Sub(e, c), w)
  {
  }

  lemma ScaledNorm(f: real, v: Vec3, len: real)
    requires len * len == NormSq(v)
    ensures NormSq(Scale(f, v)) == (f * len) * (f * len)
  {
    NormSqScale(f, v);
    assert f * f * (len * len) == (f * len) * (f * len);
  }

  lemma StretchedLength(len: real, d: real)
    requires len != 0.0
    ensures (1.0 + d * (1.0 / len)) * len == len + d
  {
    var k := 1.0 / len;
    assert k * len == 1.0;
    assert (1.0 + d * k) * len == len + d * (k * len);
  }

  /** `v + d (k v) == (1 + d k) v`. */
  lemma ScaleAdd(d: real, k: real, v: Vec3)
    ensures Add(v, Scale(d, Scale(k, v))) == Scale(1.0 + d * k, v)
  {
    var lhs := Add(v, Scale(d, Scale(k, v)));
    var rhs := Scale(1.0 + d * k, v);
    assert lhs.x == v.x + d * (k * v.x) && rhs.x == (1.0 + d * k) * v.x;
    assert lhs.y == v.y + d * (k * v.y) && rhs.y == (1.0 + d * k) * v.y;
    assert lhs.z == v.z + d * (k * v.z) && rhs.z == (1.0 + d * k) * v.z;
    ScaleAddComponent(d, k, v.x);
    ScaleAddComponent(d, k, v.y);
    ScaleAddComponent(d, k, v.z);
    assert lhs == Vec3(lhs.x, lhs.y, lhs.z) == Vec3(rhs.x, rhs.y, rhs.z) == rhs;
  }

  /** `x + d (k x) == (1 + d k) x`. */
  lemma ScaleAddComponent(d: real, k: real, x: real)
    ensures x + d * (k * x) == (1.0 + d * k) * x
  {
    assert d * (k * x) == (d * k) * x;
  }

  /** `cubicFlux`: one cubic curve whose inner control points sit one chord
      length outward from each end, on that end's radial line. */
  function CubicFlux(m: Math, mesh: Mesh, srcLat: real, srcLng: real, destLat: real, destLng: real): (c: Bezier)
    ensures c.Cubic?
    ensures c.Start() == CoordToPoint(m, mesh, srcLat, srcLng)
    ensures c.End() == CoordToPoint(m, mesh, destLat, destLng)
    ensures TrigSound(m, srcLat, srcLng) ==> NormSq(Sub(c.v0, mesh.position)) == mesh.radius * mesh.radius
    ensures TrigSound(m, destLat, destLng) ==> NormSq(Sub(c.v3, mesh.position)) == mesh.radius * mesh.radius
    ensures PushedOutward(m, mesh, c.v0, c.v1, ChordLength(m, c.v0, c.v3))
    ensures PushedOutward(m, mesh, c.v3, c.v2, ChordLength(m, c.v0, c.v3))
  {
    var srcPoint := CoordToPoint(m, mesh, srcLat, srcLng);
    var destPoint := CoordToPoint(m, mesh, destLat, destLng);
    var distance := ChordLength(m, srcPoint, destPoint);
    Cubic(srcPoint, CubicControl(m, mesh, srcPoint, distance), CubicControl(m, mesh, destPoint, distance), destPoint)
  }

  /** The join of `doubleCubicFlux`: radius plus 0.2 chord lengths from the
      centre, straight above the chord's midpoint. */
  function DoubleCubicMidPoint(m: Math, mesh: Mesh, src: Vec3, dest: Vec3): (c: Vec3)
    ensures var out := Sub(Midpoint(src, dest), mesh.position);
            var height := mesh.radius + ChordLength(m, src, dest) * 0.2;
            SqrtAt(m, NormSq(out)) && NormSq(out) != 0.0 ==>
              && NormSq(Sub(c, mesh.position)) == height * height
              && Cross(Sub(c, mesh.position), out) == Zero
              && Dot(Sub(c, mesh.position), out) == height * Length(m, out)
  {
    AboveChord(m, mesh, src, dest, mesh.radius + ChordLength(m, src, dest) * 0.2)
  }

  /** `c` lies half a chord length from `join`, along the chord and on the
      source's side of it (for end points that differ). */
  predicate TowardSource(m: Math, join: Vec3, c: Vec3, src: Vec3, dest: Vec3) {
    var chord := Sub(src, dest);
    var half := ChordLength(m, src, dest) / 2.0;
    SqrtAt(m, NormSq(chord)) && NormSq(chord) != 0.0 ==>
      && NormSq(Sub(c, join)) == half * half
      && Cross(Sub(c, join), chord) == Zero
      && Dot(Sub(c, join), chord) == half * Length(m, chord)
  }

  /** The two inner control points of `doubleCubicFlux`: half a chord length
      from the join, one towards the source and one towards the destination,
      along the chord's direction. They are mirror images through the join. */
  function InnerControls(m: Math, midPoint: Vec3, src: Vec3, dest: Vec3): (controls: (Vec3, Vec3))
    ensures Add(controls.0, controls.1) == Scale(2.0, midPoint)
    ensures TowardSource(m, midPoint, controls.0, src, dest)
  {
    var distance := ChordLength(m, src, dest);
    var normal := Sub(src, dest);
    var srcControl := Offset(m, midPoint, normal, distance / 2.0);
    var destControl := Offset(m, midPoint, normal, -distance / 2.0);
    MirrorOffsets(m, midPoint, normal, distance / 2.0);
    (srcControl, destControl)
  }

  lemma MirrorOffsets(m: Math, base: Vec3, dir: Vec3, k: real)
    ensures Add(Offset(m, base, dir, k), Offset(m, base, dir, -k)) == Scale(2.0, base)
  {
    var u := Normalize(m, dir);
    assert (-k) * u.x == -(k * u.x);
    assert (-k) * u.y == -(k * u.y);
    assert (-k) * u.z == -(k * u.z);
  }

  /** The two cubic halves of `doubleCubicFlux`. */
  datatype DoubleCubic = DoubleCubic(first: Bezier, second: Bezier)

  /** The halves meet at the elevated midpoint; the first starts with its
      two first control points on the source, the second ends with its two
      last control points on the destination, and their inner controls are
      symmetric about the join. */
  function DoubleCubicCurves(m: Math, mesh: Mesh, srcPoint: Vec3, destPoint: Vec3): (d: DoubleCubic)
    ensures d.first.Cubic? && d.second.Cubic?
    ensures d.first.v0 == srcPoint && d.first.v1 == srcPoint
    ensures d.second.v2 == destPoint && d.second.v3 == destPoint
    ensures d.first.End() == d.second.Start() == DoubleCubicMidPoint(m, mesh, srcPoint, destPoint)
    ensures Add(d.first.v2, d.second.v1) == Scale(2.0, d.first.End())
    ensures TowardSource(m, d.first.End(), d.first.v2, srcPoint, destPoint)
  {
    var midPoint := DoubleCubicMidPoint(m, mesh, srcPoint, destPoint);
    var controls := InnerControls(m, midPoint, srcPoint, destPoint);
    DoubleCubic(Cubic(srcPoint, srcPoint, controls.0, midPoint), Cubic(midPoint, controls.1, destPoint, destPoint))
  }

  /** `a.splice(0, a.length - 1).concat(b)`: all of `a` but its last point,
      then all of `b`. Exactly one copy of `a`'s last point is dropped. */
  function Splice(a: seq<Vec3>, b: seq<Vec3>): (r: seq<Vec3>)
    ensures |a| == 0 ==> r == b
    ensures |a| > 0 ==>
              && |r| == |a| + |b| - 1
              && r[..|a| - 1] == a[..|a| - 1]
              && r[|a| - 1..] == b
              && multiset(r) + multiset{a[|a| - 1]} == multiset(a) + multiset(b)
  {
    var kept := if |a| == 0 then [] else a[..|a| - 1];
    var r := kept + b;
    if |a| > 0 then
      assert a == kept + [a[|a| - 1]];
      r
    else
      r
  }

  /** Splicing two samplings that meet at `join`: the result has
      `2 * n + 1` points, the join at index `n`, and one copy of the join
      fewer than the two samplings together. */
  lemma SpliceSamples(a: seq<Vec3>, b: seq<Vec3>, first: Bezier, second: Bezier, n: nat)
    requires Samples(a, first, n) && Samples(b, second, n)
    requires first.End() == second.Start()
    ensures var points := Splice(a, b);
            && |points| == 2 * n + 1
            && points[0] == (if n == 0 then second.Start() else first.Start())
            && points[n] == first.End()
            && points[2 * n] == second.End()
            && points[..n] == a[..n]
            && points[n..] == b
            && multiset(points)[first.End()] + 1 == multiset(a)[first.End()] + multiset(b)[first.End()]
  {
    var points := Splice(a, b);
    assert points[n..][0] == points[n];
    assert points[n..][n] == points[2 * n];
    if n > 0 {
      assert points[..n][0] == points[0];
    }
    assert (multiset(points) + multiset{a[n]})[a[n]] == multiset(points)[a[n]] + 1;
  }

  /** `doubleCubicFlux`: the sampled first half without its last point,
      followed by the sampled second half. When sampling starts and ends on
      the curves' end points, the arc has `2 * 50 + 1` points, runs from the
      source to the destination through the elevated midpoint at index 50,
      and holds one copy of the join fewer than the two samplings together. */
  function DoubleCubicFlux(m: Math, mesh: Mesh, getPoints: (Bezier, nat) -> seq<Vec3>,
                           srcLat: real, srcLng: real, destLat: real, destLng: real): (points: seq<Vec3>)
    ensures var srcPoint := CoordToPoint(m, mesh, srcLat, srcLng);
            var destPoint := CoordToPoint(m, mesh, destLat, destLng);
            var halves := DoubleCubicCurves(m, mesh, srcPoint, destPoint);
            var midPoint := DoubleCubicMidPoint(m, mesh, srcPoint, destPoint);
            var a := getPoints(halves.first, Divisions);
            var b := getPoints(halves.second, Divisions);
            Samples(a, halves.first, Divisions) && Samples(b, halves.second, Divisions) ==>
              && |points| == 2 * Divisions + 1
              && points[0] == srcPoint
              && points[Divisions] == midPoint
              && points[2 * Divisions] == destPoint
              && points[..Divisions] == a[..Divisions]
              && points[Divisions..] == b
              && multiset(points)[midPoint] + 1 == multiset(a)[midPoint] + multiset(b)[midPoint]
  {
    var srcPoint := CoordToPoint(m, mesh, srcLat, srcLng);
    var destPoint := CoordToPoint(m, mesh, destLat, destLng);
    var halves := DoubleCubicCurves(m, mesh, srcPoint, destPoint);
    var a := getPoints(halves.first, Divisions);
    var b := getPoints(halves.second, Divisions);
    if Samples(a, halves.first, Divisions) && Samples(b, halves.second, Divisions) then
      SpliceSamples(a, b, halves.first, halves.second, Divisions);
      Splice(a, b)
    else
      Splice(a, b)
  }
}
