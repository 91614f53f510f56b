/** `GeoUtils.geoJsonToGeometry` (src/assets/js/utils.js): a country border,
    given as a GeoJSON Polygon or MultiPolygon, becomes one flat list of
    vertices on the globe, one vertex per position, in document order. */
module GeoJson {
  import opened Numerics
  import opened Sphere

  /** A GeoJSON position `[lon, lat]`: longitude comes first. */
  datatype Position = Position(lon: real, lat: real)

  type Ring = seq<Position>

  /** The `coordinates` member: rings for a Polygon, polygons of rings for a
      MultiPolygon. */
  datatype Coordinates =
    | Rings(rings: seq<Ring>)
    | Polygons(polygons: seq<seq<Ring>>)

  /** A feature's `geometry`: its `type` string and its coordinates. */
  datatype Geometry = Geometry(kind: string, coordinates: Coordinates)

  /** The shape the code relies on: a `"Polygon"` has rings and every other
      type has polygons of rings. */
  predicate WellShaped(g: Geometry) {
    g.kind == "Polygon" <==> g.coordinates.Rings?
  }

  /** The rings' positions, ring after ring. */
  function FlattenRings(rings: seq<Ring>): seq<Position> {
    if |rings| == 0 then [] else FlattenRings(rings[..|rings| - 1]) + rings[|rings| - 1]
  }

  /** The polygons' positions, polygon after polygon. */
  function FlattenPolygons(polygons: seq<seq<Ring>>): seq<Position> {
    if |polygons| == 0 then []
    else FlattenPolygons(polygons[..|polygons| - 1]) + FlattenRings(polygons[|polygons| - 1])
  }

  /** Every position of the geometry in document order. */
  function Positions(g: Geometry): seq<Position> {
    match g.coordinates
    case Rings(rings) => FlattenRings(rings)
    case Polygons(polygons) => FlattenPolygons(polygons)
  }

  /** One position on the globe: latitude `p[1]`, longitude `p[0]`. */
  function Project(m: Math, p: Position, mesh: Mesh): Vec3 {
    LatLonToXyz(m, p.lat, p.lon, mesh)
  }

  /** `vertices` holds exactly one projected vertex per position, in order. */
  predicate ProjectsEach(m: Math, vertices: seq<Vec3>, positions: seq<Position>, mesh: Mesh) {
    && |vertices| == |positions|
    && forall i :: 0 <= i < |positions| ==> vertices[i] == Project(m, positions[i], mesh)
  }

  lemma ProjectsEachAppend(m: Math, vs: seq<Vec3>, ps: seq<Position>, ws: seq<Vec3>, qs: seq<Position>, mesh: Mesh)
    requires ProjectsEach(m, vs, ps, mesh) && ProjectsEach(m, ws, qs, mesh)
    ensures ProjectsEach(m, vs + ws, ps + qs, mesh)
  {
    forall i | 0 <= i < |ps + qs|
      ensures (vs + ws)[i] == Project(m, (ps + qs)[i], mesh)
    {
      if i >= |ps| {
        assert (vs + ws)[i] == ws[i - |vs|];
      }
    }
  }

  /** The inner loop: push one ring's projected positions. */
  method PushRing(m: Math, vertices: seq<Vec3>, ring: Ring, mesh: Mesh) returns (out: seq<Vec3>)
    ensures |out| == |vertices| + |ring|
    ensures out[..|vertices|] == vertices
    ensures ProjectsEach(m, out[|vertices|..], ring, mesh)
  {
    out := vertices;
    var k := 0;
    while k < |ring|
      invariant 0 <= k <= |ring|
      invariant |out| == |vertices| + k
      invariant out[..|vertices|] == vertices
      invariant ProjectsEach(m, out[|vertices|..], ring[..k], mesh)
    {
      var point := ring[k];
      out := out + [LatLonToXyz(m, point.lat, point.lon, mesh)];
      k := k + 1;
    }
    assert ring[..k] == ring;
  }

  /** The method's vertex list is the projection of `Positions(g)`: nothing
      is added, dropped, duplicated or reordered, and rings are not closed.
      Any type other than `"Polygon"` takes the MultiPolygon branch. */
  method GeoJsonToGeometry(m: Math, g: Geometry, mesh: Mesh) returns (vertices: seq<Vec3>)
    requires WellShaped(g)
    ensures ProjectsEach(m, vertices, Positions(g), mesh)
    ensures g.kind == "Polygon" ==> |vertices| == RingsSize(g.coordinates.rings)
    ensures g.kind != "Polygon" ==> |vertices| == PolygonsSize(g.coordinates.polygons)
  {
    if g.kind == "Polygon" {
      vertices := PushRings(m, [], g.coordinates.rings, mesh);
      FlattenRingsLength(g.coordinates.rings);
    } else {
      vertices := [];
      var polygons := g.coordinates.polygons;
      var j := 0;
      while j < |polygons|
        invariant 0 <= j <= |polygons|
        invariant ProjectsEach(m, vertices, FlattenPolygons(polygons[..j]), mesh)
      {
        vertices := PushRings(m, vertices, polygons[j], mesh);
        assert polygons[..j + 1][..j] == polygons[..j];
        j := j + 1;
      }
      assert polygons[..j] == polygons;
      FlattenPolygonsLength(polygons);
    }
  }

  /** The loop over the rings of one polygon, appending to `vertices`. */
  method PushRings(m: Math, vertices: seq<Vec3>, polygon: seq<Ring>, mesh: Mesh) returns (out: seq<Vec3>)
    ensures |out| == |vertices| + |FlattenRings(polygon)|
    ensures out[..|vertices|] == vertices
    ensures ProjectsEach(m, out[|vertices|..], FlattenRings(polygon), mesh)
    ensures forall ps :: ProjectsEach(m, vertices, ps, mesh) ==> ProjectsEach(m, out, ps + FlattenRings(polygon), mesh)
  {
    out := vertices;
    var k := 0;
    while k < |polygon|
      invariant 0 <= k <= |polygon|
      invariant |out| == |vertices| + |FlattenRings(polygon[..k])|
      invariant out[..|vertices|] == vertices
      invariant ProjectsEach(m, out[|vertices|..], FlattenRings(polygon[..k]), mesh)
    {
      var before := out;
      out := PushRing(m, out, polygon[k], mesh);
      ProjectsEachAppend(m, before[|vertices|..], FlattenRings(polygon[..k]), out[|before|..], polygon[k], mesh);
      assert out[|vertices|..] == before[|vertices|..] + out[|before|..];
      assert polygon[..k + 1][..k] == polygon[..k];
      k := k + 1;
    }
    assert polygon[..k] == polygon;
    forall ps | ProjectsEach(m, vertices, ps, mesh)
      ensures ProjectsEach(m, out, ps + FlattenRings(polygon), mesh)
    {
      ProjectsEachAppend(m, vertices, ps, out[|vertices|..], FlattenRings(polygon), mesh);
      assert out == vertices + out[|vertices|..];
    }
  }

  /** The number of positions in a list of rings. */
  function RingsSize(rings: seq<Ring>): nat {
    if |rings| == 0 then 0 else |rings[0]| + RingsSize(rings[1..])
  }

  /** The number of positions in a list of polygons. */
  function PolygonsSize(polygons: seq<seq<Ring>>): nat {
    if |polygons| == 0 then 0 else RingsSize(polygons[0]) + PolygonsSize(polygons[1..])
  }

  lemma {:induction false} RingsSizeSnoc(rings: seq<Ring>)
    requires |rings| > 0
    ensures RingsSize(rings) == RingsSize(rings[..|rings| - 1]) + |rings[|rings| - 1]|
    decreases |rings|
  {
    if |rings| > 1 {
      RingsSizeSnoc(rings[1..]);
      assert rings[1..][..|rings[1..]| - 1] == rings[..|rings| - 1][1..];
    }
  }

  lemma {:induction false} PolygonsSizeSnoc(polygons: seq<seq<Ring>>)
    requires |polygons| > 0
    ensures PolygonsSize(polygons) == PolygonsSize(polygons[..|polygons| - 1]) + RingsSize(polygons[|polygons| - 1])
    decreases |polygons|
  {
    if |polygons| > 1 {
      PolygonsSizeSnoc(polygons[1..]);
      assert polygons[1..][..|polygons[1..]| - 1] == polygons[..|polygons| - 1][1..];
    }
  }

  /** A Polygon yields as many vertices as its rings hold positions. */
  lemma {:induction false} FlattenRingsLength(rings: seq<Ring>)
    ensures |FlattenRings(rings)| == RingsSize(rings)
    decreases |rings|
  {
    if |rings| > 0 {
      FlattenRingsLength(rings[..|rings| - 1]);
      RingsSizeSnoc(rings);
    }
  }

  /** A MultiPolygon yields as many vertices as all its polygons' rings hold
      positions. */
  lemma {:induction false} FlattenPolygonsLength(polygons: seq<seq<Ring>>)
    ensures |FlattenPolygons(polygons)| == PolygonsSize(polygons)
    decreases |polygons|
  {
    if |polygons| > 0 {
      FlattenPolygonsLength(polygons[..|polygons| - 1]);
      FlattenRingsLength(polygons[|polygons| - 1]);
      PolygonsSizeSnoc(polygons);
    }
  }

  /** Position `k` of ring `j` lands right after the positions of rings
      `0..j-1`: ring by ring, point by point. */
  lemma {:induction false} FlattenRingsIndex(rings: seq<Ring>, j: nat, k: nat)
    requires j < |rings| && k < |rings[j]|
    ensures RingsSize(rings[..j]) + k < |FlattenRings(rings)|
    ensures FlattenRings(rings)[RingsSize(rings[..j]) + k] == rings[j][k]
    decreases |rings|
  {
    var n := |rings| - 1;
    FlattenRingsLength(rings[..j]);
    FlattenRingsLength(rings[..n]);
    assert rings[..n][..j] == rings[..j];
    if j < n {
      FlattenRingsIndex(rings[..n], j, k);
      assert rings[..n][j] == rings[j];
    } else {
      assert rings[..j] == rings[..n];
    }
  }

  /** A MultiPolygon flattens exactly like one Polygon holding all its rings
      in order: the two branches of the code agree. */
  lemma {:induction false} FlattenPolygonsAsRings(polygons: seq<seq<Ring>>)
    ensures FlattenPolygons(polygons) == FlattenRings(ConcatRings(polygons))
    decreases |polygons|
  {
    if |polygons| > 0 {
      var n := |polygons| - 1;
      FlattenPolygonsAsRings(polygons[..n]);
      FlattenRingsAppend(ConcatRings(polygons[..n]), polygons[n]);
    }
  }

  /** All rings of all polygons, polygon after polygon. */
  function ConcatRings(polygons: seq<seq<Ring>>): seq<Ring> {
    if |polygons| == 0 then [] else ConcatRings(polygons[..|polygons| - 1]) + polygons[|polygons| - 1]
  }

  lemma {:induction false} FlattenRingsAppend(a: seq<Ring>, b: seq<Ring>)
    ensures FlattenRings(a + b) == FlattenRings(a) + FlattenRings(b)
    decreases |b|
  {
    if |b| > 0 {
      var n := |b| - 1;
      assert (a + b)[..|a + b| - 1] == a + b[..n];
      FlattenRingsAppend(a, b[..n]);
    } else {
      assert a + b == a;
    }
  }
}
