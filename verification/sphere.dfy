/** The latitude/longitude to Cartesian projection shared by `GeoUtils` and
    `Flux` (src/assets/js/utils.js and src/assets/js/flux.js).

    The convention is the source's: colatitude `phi = (90 - lat)` degrees and
    azimuth `theta = (180 - lon)` degrees, with `y` pointing to the north pole:
    `(r sin(phi) cos(theta), r cos(phi), r sin(phi) sin(theta))`. */
module Sphere {
  import opened Numerics

  /** The two parts of a THREE mesh the projection reads: the sphere
      geometry's radius and the mesh's position (the sphere's centre). */
  datatype Mesh = Mesh(radius: real, position: Vec3)

  /** `(90 - lat) * PI / 180`. */
  function Colatitude(m: Math, lat: real): real {
    (90.0 - lat) * m.pi / 180.0
  }

  /** `(180 - lon) * PI / 180`. */
  function Azimuth(m: Math, lon: real): real {
    (180.0 - lon) * m.pi / 180.0
  }

  /** Both angles of a coordinate satisfy `sin^2 + cos^2 == 1`. */
  predicate TrigSound(m: Math, lat: real, lon: real) {
    PythagoreanAt(m, Colatitude(m, lat)) && PythagoreanAt(m, Azimuth(m, lon))
  }

  /** The point at distance `r` from the origin in the direction of the
      coordinate (`lat`, `lon`). */
  function SphericalOffset(m: Math, r: real, lat: real, lon: real): (p: Vec3)
    ensures TrigSound(m, lat, lon) ==> NormSq(p) == r * r
  {
    var phi := Colatitude(m, lat);
    var theta := Azimuth(m, lon);
    var p := Vec3(r * m.sin(phi) * m.cos(theta), r * m.cos(phi), r * m.sin(phi) * m.sin(theta));
    if TrigSound(m, lat, lon) then
      SphereIdentity(r, m.sin(phi), m.cos(phi), m.sin(theta), m.cos(theta));
      p
    else
      p
  }

  /** `(r s c2)^2 + (r c)^2 + (r s s2)^2 == r^2` when `s^2 + c^2 == 1` and
      `s2^2 + c2^2 == 1`. */
  lemma SphereIdentity(r: real, s: real, c: real, s2: real, c2: real)
    requires s * s + c * c == 1.0
    requires s2 * s2 + c2 * c2 == 1.0
    ensures (r * s * c2) * (r * s * c2) + (r * c) * (r * c) + (r * s * s2) * (r * s * s2) == r * r
  {
    var q := (r * s) * (r * s);
    assert (r * s * c2) * (r * s * c2) == q * (c2 * c2);
    assert (r * s * s2) * (r * s * s2) == q * (s2 * s2);
    assert q * (c2 * c2) + q * (s2 * s2) == q * (s2 * s2 + c2 * c2);
    assert q * (s2 * s2 + c2 * c2) == q;
    assert q == (r * r) * (s * s);
    assert (r * c) * (r * c) == (r * r) * (c * c);
    assert (r * r) * (s * s) + (r * r) * (c * c) == (r * r) * (s * s + c * c);
  }

  /** `GeoUtils.latLonToXyz`: the point of the mesh's sphere at (`lat`, `lon`). */
  function LatLonToXyz(m: Math, lat: real, lon: real, mesh: Mesh): (p: Vec3)
    ensures TrigSound(m, lat, lon) ==>
              NormSq(Sub(p, mesh.position)) == mesh.radius * mesh.radius
  {
    var p := Add(SphericalOffset(m, mesh.radius, lat, lon), mesh.position);
    assert Sub(p, mesh.position) == SphericalOffset(m, mesh.radius, lat, lon);
    p
  }

  /** Moving the mesh by `v` moves every projected point by exactly `v`. */
  lemma LatLonToXyzTranslation(m: Math, lat: real, lon: real, mesh: Mesh, v: Vec3)
    ensures LatLonToXyz(m, lat, lon, mesh.(position := Add(mesh.position, v)))
         == Add(LatLonToXyz(m, lat, lon, mesh), v)
  {
  }
}
