/** Expanding indexed faces into a triangle soup: every face emits its three points,
    looked up in the decoded vertex list, with no sharing between faces. */
module TriangleFlattener {
  import opened Scene
  import opened Vectors

  /** Every index of every face addresses one of `count` decoded points. */
  predicate InRange(faces: seq<Face>, count: nat)
  {
    forall t :: 0 <= t < |faces| ==> faces[t].x < count && faces[t].y < count && faces[t].z < count
  }

  /** The three looked-up points of each face, face after face. */
  function Flattened(vtx: seq<Vec3>, faces: seq<Face>): (r: seq<Vec3>)
    requires InRange(faces, |vtx|)
    ensures |r| == 3 * |faces|
  {
    if |faces| == 0 then []
    else [vtx[faces[0].x], vtx[faces[0].y], vtx[faces[0].z]] + Flattened(vtx, faces[1..])
  }

  /** The soup has three entries per face, and entries `3t`, `3t + 1`, `3t + 2` are the
      points named by the three indices of face `t`. */
  lemma {:induction false} FlattenedAt(vtx: seq<Vec3>, faces: seq<Face>, t: nat)
    requires InRange(faces, |vtx|)
    ensures |Flattened(vtx, faces)| == 3 * |faces|
    ensures t < |faces| ==>
              Flattened(vtx, faces)[3 * t] == vtx[faces[t].x] &&
              Flattened(vtx, faces)[3 * t + 1] == vtx[faces[t].y] &&
              Flattened(vtx, faces)[3 * t + 2] == vtx[faces[t].z]
  {
    if |faces| > 0 {
      FlattenedAt(vtx, faces[1..], if t > 0 then t - 1 else 0);
    }
  }

  /** A sequence that agrees with the description of `FlattenedAt` is the soup. */
  lemma FlattenedUnique(vtx: seq<Vec3>, faces: seq<Face>, r: seq<Vec3>)
    requires InRange(faces, |vtx|) && |r| == 3 * |faces|
    requires forall t :: 0 <= t < |faces| ==>
               r[3 * t] == vtx[faces[t].x] && r[3 * t + 1] == vtx[faces[t].y] && r[3 * t + 2] == vtx[faces[t].z]
    ensures r == Flattened(vtx, faces)
  {
    FlattenedAt(vtx, faces, 0);
    var f := Flattened(vtx, faces);
    forall k | 0 <= k < |r| ensures r[k] == f[k] {
      var t := k / 3;
      FlattenedAt(vtx, faces, t);
      if k == 3 * t {
      } else if k == 3 * t + 1 {
      } else {
        assert k == 3 * t + 2;
      }
    }
  }

  /** The push loop over the faces; a face index past the decoded points aborts the load. */
  method FlattenFaces(vtx: seq<Vec3>, faces: seq<Face>) returns (r: Result<seq<Vec3>>)
    ensures r.Ok? <==> InRange(faces, |vtx|)
    ensures r.Err? ==> r.error == IndexOutOfRange
    ensures r.Ok? ==> r.value == Flattened(vtx, faces)
  {
    var verticesFinal: seq<Vec3> := [];
    var i := 0;
    while i < |faces|
      invariant 0 <= i <= |faces|
      invariant InRange(faces[..i], |vtx|)
      invariant |verticesFinal| == 3 * i
      invariant forall t :: 0 <= t < i ==>
                  verticesFinal[3 * t] == vtx[faces[t].x] &&
                  verticesFinal[3 * t + 1] == vtx[faces[t].y] &&
                  verticesFinal[3 * t + 2] == vtx[faces[t].z]
    {
      var idx := faces[i];
      if idx.x >= |vtx| || idx.y >= |vtx| || idx.z >= |vtx| {
        return Err(IndexOutOfRange);
      }
      var a, b, c := vtx[idx.x], vtx[idx.y], vtx[idx.z];
      verticesFinal := verticesFinal + [a, b, c];
      assert faces[..i + 1] == faces[..i] + [idx];
      i := i + 1;
    }
    assert faces[..i] == faces;
    FlattenedUnique(vtx, faces, verticesFinal);
    return Ok(verticesFinal);
  }
}
