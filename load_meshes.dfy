/** The import pipeline of `load_meshes`, geometry by geometry: resolve and decode the
    positions, collect and reshape the indices, flatten, synthesise normals and assemble.
    Every `unwrap()` that can fail on the way aborts the whole load. */
module LoadMeshes {
  import opened Scene
  import opened Vectors
  import opened Chunking
  import opened PositionSource
  import opened VertexDecoder
  import opened IndexReshaper
  import opened TriangleFlattener
  import opened NormalSynthesizer
  import opened MeshAssembler

  /** The mesh built from one `<mesh>`, or the first reason the program would abort. */
  function ImportMesh(mesh: Mesh, normalize: Vec3 -> Vec3): Result<MeshArtifact>
  {
    var positions := ResolvePositions(mesh);
    if positions.Err? then Err(positions.error)
    else
      var vertex := Triples(positions.value);
      var flat := CollectedIndices(mesh.elements);
      if flat.Err? then Err(flat.error)
      else
        var faces := FaceList(flat.value, |mesh.sources|);
        if faces.Err? then Err(faces.error)
        else if !InRange(faces.value, |vertex|) then Err(IndexOutOfRange)
        else
          var soup := Flattened(vertex, faces.value);
          FlattenedAt(vertex, faces.value, 0);
          Ok(Assemble(soup, MeshNormals(soup, normalize)))
  }

  /** One geometry of the document: only a `<mesh>` element can be imported. */
  function ImportGeometry(geometry: Geometry, normalize: Vec3 -> Vec3): Result<MeshArtifact>
  {
    match geometry.element
    case MeshElement(mesh) => ImportMesh(mesh, normalize)
    case OtherElement => Err(NotAMesh)
  }

  /** The body of the loop over the geometries, step by step as the program runs it. */
  method LoadGeometry(geometry: Geometry, normalize: Vec3 -> Vec3) returns (r: Result<MeshArtifact>)
    ensures r == ImportGeometry(geometry, normalize)
  {
    if geometry.element.OtherElement? {
      return Err(NotAMesh);
    }
    var mesh := geometry.element.mesh;
    var positions := ResolvePositionBuffer(mesh);
    if positions.Err? {
      return Err(positions.error);
    }
    var vertex := DecodeVertices(positions.value);
    var flat := CollectIndices(mesh.elements);
    if flat.Err? {
      return Err(flat.error);
    }
    var kept := KeepStream0(flat.value, |mesh.sources|);
    if kept.Err? {
      return Err(kept.error);
    }
    var faces := RegroupFaces(kept.value);
    var soup := FlattenFaces(vertex, faces);
    if soup.Err? {
      return Err(soup.error);
    }
    FlattenedAt(vertex, faces, 0);
    var normals := SynthesizeNormals(soup.value, normalize);
    normals := RenormalizeInPlace(normals, normalize);
    var indices := SequentialIndices(|soup.value|);
    var uvs := ZeroUvs(|soup.value|);
    return Ok(MeshArtifact(soup.value, normals, uvs, indices));
  }

  /** What every imported mesh satisfies: as many normals and texture coordinates as
      points, a whole number of triangles, the three corners of a triangle sharing one
      normal, all texture coordinates (0, 0), and the identity index buffer. */
  ghost predicate FlatShaded(m: MeshArtifact)
  {
    && |m.normals| == |m.positions| && |m.uvs| == |m.positions| && |m.positions| % 3 == 0
    && (forall t :: 0 <= t < |m.positions| / 3 ==>
          m.normals[3 * t + 1] == m.normals[3 * t] && m.normals[3 * t + 2] == m.normals[3 * t])
    && (forall i :: 0 <= i < |m.uvs| ==> m.uvs[i] == Uv(0.0, 0.0))
    && |m.indices| == |m.positions| % U32Modulus
    && (forall i :: 0 <= i < |m.indices| ==> m.indices[i] == i)
    && (|m.positions| < U32Modulus ==> |m.indices| == |m.positions|)
  }

  /** Assembling a soup with its mesh normals gives a flat-shaded mesh. */
  lemma AssembledIsFlatShaded(soup: seq<Vec3>, normalize: Vec3 -> Vec3)
    requires |soup| % 3 == 0
    ensures FlatShaded(Assemble(soup, MeshNormals(soup, normalize)))
  {
    var m := Assemble(soup, MeshNormals(soup, normalize));
    MeshNormalsAt(soup, normalize, 0);
    forall u | 0 <= u < |soup| / 3
      ensures m.normals[3 * u + 1] == m.normals[3 * u] && m.normals[3 * u + 2] == m.normals[3 * u]
    {
      MeshNormalsAt(soup, normalize, u);
    }
  }

  /** What a successful import is made of. */
  lemma ImportMeshParts(mesh: Mesh, normalize: Vec3 -> Vec3)
    requires ImportMesh(mesh, normalize).Ok?
    ensures ResolvePositions(mesh).Ok? && CollectedIndices(mesh.elements).Ok?
    ensures FaceList(CollectedIndices(mesh.elements).value, |mesh.sources|).Ok?
    ensures var vertex := Triples(ResolvePositions(mesh).value);
            var faces := FaceList(CollectedIndices(mesh.elements).value, |mesh.sources|).value;
            InRange(faces, |vertex|) &&
            ImportMesh(mesh, normalize).value ==
              Assemble(Flattened(vertex, faces), MeshNormals(Flattened(vertex, faces), normalize))
  {
  }

  /** An imported mesh is flat-shaded. */
  lemma ImportedMeshIsFlatShaded(mesh: Mesh, normalize: Vec3 -> Vec3, m: MeshArtifact)
    requires ImportMesh(mesh, normalize) == Ok(m)
    ensures FlatShaded(m)
  {
    ImportMeshParts(mesh, normalize);
    var vertex := Triples(ResolvePositions(mesh).value);
    var faces := FaceList(CollectedIndices(mesh.elements).value, |mesh.sources|).value;
    var soup := Flattened(vertex, faces);
    AssembledIsFlatShaded(soup, normalize);
  }

  /** An imported mesh has three points per face of its face list, and its corners are
      the decoded points named by the faces, in face order. */
  lemma ImportedMeshCorners(mesh: Mesh, normalize: Vec3 -> Vec3, t: nat)
    requires ImportMesh(mesh, normalize).Ok?
    ensures ResolvePositions(mesh).Ok? && CollectedIndices(mesh.elements).Ok?
    ensures FaceList(CollectedIndices(mesh.elements).value, |mesh.sources|).Ok?
    ensures var vertex := Triples(ResolvePositions(mesh).value);
            var faces := FaceList(CollectedIndices(mesh.elements).value, |mesh.sources|).value;
            var m := ImportMesh(mesh, normalize).value;
            |m.positions| == 3 * |faces| &&
            (t < |faces| ==>
               faces[t].x < |vertex| && faces[t].y < |vertex| && faces[t].z < |vertex| &&
               m.positions[3 * t] == vertex[faces[t].x] &&
               m.positions[3 * t + 1] == vertex[faces[t].y] &&
               m.positions[3 * t + 2] == vertex[faces[t].z])
  {
    ImportMeshParts(mesh, normalize);
    var vertex := Triples(ResolvePositions(mesh).value);
    var faces := FaceList(CollectedIndices(mesh.elements).value, |mesh.sources|).value;
    FlattenedAt(vertex, faces, t);
  }

  /** The import of one mesh succeeds exactly when every step does: the first vertices
      input names a fragment, the source scan meets no source without id or array, every
      triangles block has data, the reshape fits (see `FaceListAt`: at least one source
      and an index count that is a multiple of three times the source count), and every
      face index names a decoded point. */
  lemma ImportMeshSucceeds(mesh: Mesh, normalize: Vec3 -> Vec3)
    ensures ImportMesh(mesh, normalize).Ok? <==>
              && PositionKey(mesh).Ok?
              && Lookup(mesh.sources, PositionKey(mesh).value).Ok?
              && (forall i :: 0 <= i < |mesh.elements| ==> mesh.elements[i] != Triangles(None))
              && CollectedIndices(mesh.elements).Ok?
              && FaceList(CollectedIndices(mesh.elements).value, |mesh.sources|).Ok?
              && InRange(FaceList(CollectedIndices(mesh.elements).value, |mesh.sources|).value,
                         |Lookup(mesh.sources, PositionKey(mesh).value).value| / 3)
  {
    CollectedIndicesOk(mesh.elements);
    if ResolvePositions(mesh).Ok? {
      TriplesAt(ResolvePositions(mesh).value, 0);
    }
  }

  /* ---------- The loop over all geometries ---------- */

  /** All geometries imported in order; the first failure aborts the load. */
  function ImportScene(geometries: seq<Geometry>, normalize: Vec3 -> Vec3): Result<seq<MeshArtifact>>
  {
    if |geometries| == 0 then Ok([])
    else
      var first := ImportGeometry(geometries[0], normalize);
      if first.Err? then Err(first.error)
      else
        var rest := ImportScene(geometries[1..], normalize);
        if rest.Err? then rest else Ok([first.value] + rest.value)
  }

  /** The load succeeds exactly when every geometry imports, and then yields one mesh per
      geometry, in order (`ImportSceneFirstFailure` gives the error otherwise). */
  lemma {:induction false} ImportSceneAt(geometries: seq<Geometry>, normalize: Vec3 -> Vec3)
    ensures ImportScene(geometries, normalize).Ok? <==>
              forall i :: 0 <= i < |geometries| ==> ImportGeometry(geometries[i], normalize).Ok?
    ensures ImportScene(geometries, normalize).Ok? ==>
              |ImportScene(geometries, normalize).value| == |geometries| &&
              forall i :: 0 <= i < |geometries| ==>
                ImportScene(geometries, normalize).value[i] == ImportGeometry(geometries[i], normalize).value
  {
    if |geometries| > 0 {
      var tail := geometries[1..];
      ImportSceneAt(tail, normalize);
      assert forall i :: 1 <= i < |geometries| ==> geometries[i] == tail[i - 1];
    }
  }

  /** The first failing geometry decides the error of the whole load. */
  lemma {:induction false} ImportSceneFirstFailure(geometries: seq<Geometry>, normalize: Vec3 -> Vec3, j: nat)
    requires j < |geometries| && ImportGeometry(geometries[j], normalize).Err?
    requires forall i :: 0 <= i < j ==> ImportGeometry(geometries[i], normalize).Ok?
    ensures ImportScene(geometries, normalize) == Err(ImportGeometry(geometries[j], normalize).error)
  {
    if j > 0 {
      assert forall i :: 0 <= i < j - 1 ==> geometries[1..][i] == geometries[i + 1];
      ImportSceneFirstFailure(geometries[1..], normalize, j - 1);
    }
  }

  /** When every geometry imports, the load yields exactly the given meshes. */
  lemma {:induction false} ImportSceneAllOk(geometries: seq<Geometry>, normalize: Vec3 -> Vec3, meshes: seq<MeshArtifact>)
    requires |meshes| == |geometries|
    requires forall i :: 0 <= i < |geometries| ==>
               ImportGeometry(geometries[i], normalize) == Ok(meshes[i])
    ensures ImportScene(geometries, normalize) == Ok(meshes)
  {
    if |geometries| > 0 {
      assert forall i :: 0 <= i < |geometries| - 1 ==> geometries[1..][i] == geometries[i + 1];
      ImportSceneAllOk(geometries[1..], normalize, meshes[1..]);
      assert meshes == [meshes[0]] + meshes[1..];
    }
  }

  /** The loop `for object in geometry.0` of `load_meshes`. */
  method LoadAllMeshes(geometries: seq<Geometry>, normalize: Vec3 -> Vec3) returns (r: Result<seq<MeshArtifact>>)
    ensures r == ImportScene(geometries, normalize)
  {
    var loaded: seq<MeshArtifact> := [];
    var i := 0;
    while i < |geometries|
      invariant 0 <= i <= |geometries| && |loaded| == i
      invariant forall k :: 0 <= k < i ==> ImportGeometry(geometries[k], normalize) == Ok(loaded[k])
    {
      var mesh := LoadGeometry(geometries[i], normalize);
      if mesh.Err? {
        ImportSceneFirstFailure(geometries, normalize, i);
        return Err(mesh.error);
      }
      loaded := loaded + [mesh.value];
      i := i + 1;
    }
    ImportSceneAllOk(geometries, normalize, loaded);
    return Ok(loaded);
  }

  /* ---------- A worked example ---------- */

  /** A tetrahedron: four corner points, four faces, one source (so one index per corner). */
  const TetraPoints: seq<real> := [0.0, 0.0, 0.0,  1.0, 0.0, 0.0,  0.0, 1.0, 0.0,  0.0, 0.0, 1.0]
  const TetraIndices: seq<nat> := [0, 1, 2,  0, 1, 3,  0, 2, 3,  1, 2, 3]
  const Tetrahedron: Mesh :=
    Mesh([Source(Some("tetra-positions"), Some(FloatArray(TetraPoints)))],
         Some(Vertices([Input("POSITION", Fragment("tetra-positions"))])),
         [Triangles(Some(TetraIndices))])

  const O: Vec3 := Triple(0.0, 0.0, 0.0)
  const Ex: Vec3 := Triple(1.0, 0.0, 0.0)
  const Ey: Vec3 := Triple(0.0, 1.0, 0.0)
  const Ez: Vec3 := Triple(0.0, 0.0, 1.0)
  const TetraSoup: seq<Vec3> := [O, Ex, Ey,  O, Ex, Ez,  O, Ey, Ez,  Ex, Ey, Ez]

  lemma TetrahedronVertices()
    ensures ResolvePositions(Tetrahedron) == Ok(TetraPoints)
    ensures Triples(TetraPoints) == [O, Ex, Ey, Ez]
  {
  }

  lemma TetrahedronFaces()
    ensures CollectedIndices(Tetrahedron.elements) == Ok(TetraIndices)
    ensures FaceList(TetraIndices, 1) == Ok([Triple(0, 1, 2), Triple(0, 1, 3), Triple(0, 2, 3), Triple(1, 2, 3)])
  {
    assert TetraIndices + [] == TetraIndices;
    FaceListAt(TetraIndices, 1, 0);
    FaceListAt(TetraIndices, 1, 1);
    FaceListAt(TetraIndices, 1, 2);
    FaceListAt(TetraIndices, 1, 3);
    var f := FaceList(TetraIndices, 1).value;
    assert |f| == 4;
    assert f[0] == Triple(0, 1, 2) && f[1] == Triple(0, 1, 3) && f[2] == Triple(0, 2, 3) && f[3] == Triple(1, 2, 3);
    assert f == [Triple(0, 1, 2), Triple(0, 1, 3), Triple(0, 2, 3), Triple(1, 2, 3)];
  }

  lemma TetrahedronSoup()
    ensures InRange([Triple(0, 1, 2), Triple(0, 1, 3), Triple(0, 2, 3), Triple(1, 2, 3)], 4)
    ensures Flattened([O, Ex, Ey, Ez], [Triple(0, 1, 2), Triple(0, 1, 3), Triple(0, 2, 3), Triple(1, 2, 3)]) == TetraSoup
  {
    var vertex, faces := [O, Ex, Ey, Ez], [Triple(0, 1, 2), Triple(0, 1, 3), Triple(0, 2, 3), Triple(1, 2, 3)];
    FlattenedAt(vertex, faces, 0);
    FlattenedAt(vertex, faces, 1);
    FlattenedAt(vertex, faces, 2);
    FlattenedAt(vertex, faces, 3);
  }

  lemma TetrahedronNormals(normalize: Vec3 -> Vec3)
    ensures |MeshNormals(TetraSoup, normalize)| == 12
    ensures forall c :: 0 <= c < 3 ==> MeshNormals(TetraSoup, normalize)[c] == normalize(normalize(Triple(0.0, 0.0, 1.0)))
    ensures forall c :: 3 <= c < 6 ==> MeshNormals(TetraSoup, normalize)[c] == normalize(normalize(Triple(0.0, -1.0, 0.0)))
    ensures forall c :: 6 <= c < 9 ==> MeshNormals(TetraSoup, normalize)[c] == normalize(normalize(Triple(1.0, 0.0, 0.0)))
    ensures forall c :: 9 <= c < 12 ==> MeshNormals(TetraSoup, normalize)[c] == normalize(normalize(Triple(1.0, 1.0, 1.0)))
  {
    MeshNormalsAt(TetraSoup, normalize, 0);
    MeshNormalsAt(TetraSoup, normalize, 1);
    MeshNormalsAt(TetraSoup, normalize, 2);
    MeshNormalsAt(TetraSoup, normalize, 3);
    assert Cross(Sub(Ex, O), Sub(Ey, O)) == Triple(0.0, 0.0, 1.0);
    assert Cross(Sub(Ex, O), Sub(Ez, O)) == Triple(0.0, -1.0, 0.0);
    assert Cross(Sub(Ey, O), Sub(Ez, O)) == Triple(1.0, 0.0, 0.0);
    assert Cross(Sub(Ey, Ex), Sub(Ez, Ex)) == Triple(1.0, 1.0, 1.0);
  }

  /** The tetrahedron imports to 12 points (4 triangles, nothing shared), 12 normals in four
      runs of three, each from its own face's edge cross product, and the index buffer 0..11. */
  lemma TetrahedronImport(normalize: Vec3 -> Vec3)
    ensures ImportMesh(Tetrahedron, normalize).Ok?
    ensures var m := ImportMesh(Tetrahedron, normalize).value;
            && m.positions == TetraSoup
            && m.indices == [0, 1, 2, 3, 4, 5, 6, 7, 8, 9, 10, 11]
            && m.normals == MeshNormals(TetraSoup, normalize)
  {
    TetrahedronVertices();
    TetrahedronFaces();
    TetrahedronSoup();
    assert SequentialIndices(12) == [0, 1, 2, 3, 4, 5, 6, 7, 8, 9, 10, 11];
  }
}
