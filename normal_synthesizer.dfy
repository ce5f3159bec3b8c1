/** Flat-shading normals: one normal per triangle of the soup, copied to its three
    corners, then every entry normalised once more in place. Normalisation (a square
    root in floating point) is left abstract as the parameter `normalize`. */
module NormalSynthesizer {
  import opened Vectors

  /** The normal of triangle (a, b, c): the normalised cross product of its two edges from `a`. */
  function FaceNormal(a: Vec3, b: Vec3, c: Vec3, normalize: Vec3 -> Vec3): Vec3
  {
    normalize(Cross(Sub(b, a), Sub(c, a)))
  }

  /** Before normalisation the face normal is perpendicular to both edges of the triangle. */
  lemma EdgeCrossIsPerpendicular(a: Vec3, b: Vec3, c: Vec3)
    ensures Dot(Cross(Sub(b, a), Sub(c, a)), Sub(b, a)) == 0.0
    ensures Dot(Cross(Sub(b, a), Sub(c, a)), Sub(c, a)) == 0.0
  {
  }

  /** One normal per chunk of three points, repeated three times. */
  function BroadcastNormals(soup: seq<Vec3>, normalize: Vec3 -> Vec3): seq<Vec3>
    requires |soup| % 3 == 0
  {
    if |soup| == 0 then []
    else
      var n := FaceNormal(soup[0], soup[1], soup[2], normalize);
      [n, n, n] + BroadcastNormals(soup[3..], normalize)
  }

  /** There is one normal per point, and the three corners of triangle `t` all carry the
      normal of that triangle, computed from its own three points only. */
  lemma {:induction false} BroadcastNormalsAt(soup: seq<Vec3>, normalize: Vec3 -> Vec3, t: nat)
    requires |soup| % 3 == 0
    ensures |BroadcastNormals(soup, normalize)| == |soup|
    ensures 3 * t + 2 < |soup| ==>
              var n := FaceNormal(soup[3 * t], soup[3 * t + 1], soup[3 * t + 2], normalize);
              BroadcastNormals(soup, normalize)[3 * t] == n &&
              BroadcastNormals(soup, normalize)[3 * t + 1] == n &&
              BroadcastNormals(soup, normalize)[3 * t + 2] == n
  {
    if |soup| > 0 {
      BroadcastNormalsAt(soup[3..], normalize, if t > 0 then t - 1 else 0);
    }
  }

  lemma BroadcastNormalsUnique(soup: seq<Vec3>, normalize: Vec3 -> Vec3, r: seq<Vec3>)
    requires |soup| % 3 == 0 && |r| == |soup|
    requires forall t :: 0 <= t < |soup| / 3 ==>
               var n := FaceNormal(soup[3 * t], soup[3 * t + 1], soup[3 * t + 2], normalize);
               r[3 * t] == n && r[3 * t + 1] == n && r[3 * t + 2] == n
    ensures r == BroadcastNormals(soup, normalize)
  {
    BroadcastNormalsAt(soup, normalize, 0);
    var b := BroadcastNormals(soup, normalize);
    forall k | 0 <= k < |r| ensures r[k] == b[k] {
      var t := k / 3;
      BroadcastNormalsAt(soup, normalize, t);
      if k == 3 * t {
      } else if k == 3 * t + 1 {
      } else {
        assert k == 3 * t + 2;
      }
    }
  }

  /** The loop over `chunks(3)` of the soup, pushing the chunk's normal three times.
      The soup always has a multiple of three points (see `FlattenedAt`), so every
      chunk is complete. */
  method SynthesizeNormals(soup: seq<Vec3>, normalize: Vec3 -> Vec3) returns (normals: seq<Vec3>)
    requires |soup| % 3 == 0
    ensures normals == BroadcastNormals(soup, normalize)
  {
    normals := [];
    var i := 0;
    while i < |soup|
      invariant 0 <= i <= |soup| && i % 3 == 0
      invariant |normals| == i
      invariant forall t :: 0 <= t < i / 3 ==>
                  var n := FaceNormal(soup[3 * t], soup[3 * t + 1], soup[3 * t + 2], normalize);
                  normals[3 * t] == n && normals[3 * t + 1] == n && normals[3 * t + 2] == n
    {
      var a, b, c := soup[i], soup[i + 1], soup[i + 2];
      var n := FaceNormal(a, b, c, normalize);
      normals := normals + [n, n, n];
      i := i + 3;
    }
    BroadcastNormalsUnique(soup, normalize, normals);
  }

  /** Every normal replaced by its normalised value. */
  function Renormalized(normals: seq<Vec3>, normalize: Vec3 -> Vec3): seq<Vec3>
  {
    seq(|normals|, i requires 0 <= i < |normals| => normalize(normals[i]))
  }

  /** The in-place `iter_mut` pass that normalises every stored normal again. */
  method RenormalizeInPlace(normals: seq<Vec3>, normalize: Vec3 -> Vec3) returns (r: seq<Vec3>)
    ensures r == Renormalized(normals, normalize)
  {
    r := normals;
    var i := 0;
    while i < |r|
      invariant 0 <= i <= |r| == |normals|
      invariant forall j :: 0 <= j < i ==> r[j] == normalize(normals[j])
      invariant forall j :: i <= j < |r| ==> r[j] == normals[j]
    {
      r := r[i := normalize(r[i])];
      i := i + 1;
    }
  }

  /** The normals that end up in the mesh. */
  function MeshNormals(soup: seq<Vec3>, normalize: Vec3 -> Vec3): seq<Vec3>
    requires |soup| % 3 == 0
  {
    Renormalized(BroadcastNormals(soup, normalize), normalize)
  }

  /** The final normal list has one entry per point, and the three corners of each triangle
      carry one identical value, determined by that triangle's points alone. */
  lemma MeshNormalsAt(soup: seq<Vec3>, normalize: Vec3 -> Vec3, t: nat)
    requires |soup| % 3 == 0
    ensures |MeshNormals(soup, normalize)| == |soup|
    ensures 3 * t + 2 < |soup| ==>
              var n := normalize(FaceNormal(soup[3 * t], soup[3 * t + 1], soup[3 * t + 2], normalize));
              MeshNormals(soup, normalize)[3 * t] == n &&
              MeshNormals(soup, normalize)[3 * t + 1] == n &&
              MeshNormals(soup, normalize)[3 * t + 2] == n
  {
    BroadcastNormalsAt(soup, normalize, t);
  }
}
