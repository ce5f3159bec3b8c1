# Drone mesh import and impulse control, modelled in Dafny

The program loads a drone frame from a COLLADA (`.dae`) scene document. It turns every
`<geometry>` into a flat-shaded triangle mesh and a physics collider, spawns it as a
dynamic rigid body, and then, on every frame, steers the body with thrust and torque
impulses while the keys A, S, D or F are held. This project models two things in Dafny:

* the geometry re-indexing pipeline of `load_meshes` (module per step):
  - `PositionSource`: resolving the position buffer from the first `<vertices>` input's
    fragment URL and the first `<source>` with that id;
  - `VertexDecoder`: the counter-driven loop that turns the float buffer into points;
  - `IndexReshaper`: concatenating the `<p>` data of the `<triangles>` blocks, viewing
    it as a `[T, 3, N]` array (N = number of sources), keeping stream 0 of every corner
    and regrouping the kept indices into faces;
  - `TriangleFlattener`: the triangle soup, with three fresh points per face;
  - `NormalSynthesizer`: one cross-product normal per triangle, copied to its three
    corners and normalised again in place;
  - `MeshAssembler`: constant (0, 0) texture coordinates and the index buffer `0..len`;
  - `LoadMeshes`: the whole pipeline for one geometry and the loop over all geometries,
    with every `unwrap()` of the re-indexing steps (src/main.rs:33-165) that can panic
    modelled as an error value (`Scene.LoadError`);
* the per-frame control rule `test` (module `Control`): for every held key in the
  order A, S, D, F, every `ExternalImpulse` is overwritten with the thrust
  (0, 0.00004, 0) and the torque `cross(translation + offset, thrust)`, for every body
  transform in turn.

Values are exact: f32 coordinates are `real`, u32 indices are `nat`. The scene document
is plain datatypes (`Scene`). Normalising a vector (a square root) is a function
parameter `normalize: Vec3 -> Vec3` that the model leaves uninterpreted.

The code departs from what a reader of the COLLADA format or of the program's intent
might expect in several places, and the model follows the code:
- Resolution errors: no source with the fragment's id gives an empty position buffer,
  not a "missing source" error, and a matched source that is not a float array also
  gives an empty buffer.
- Duplicate ids: there is no "ambiguous source" error; the first match wins.
- `<float_array>` layout: a buffer whose length is not a multiple of 3 loses its one or
  two trailing values instead of being rejected.
- `id` is optional in COLLADA, but a source without one aborts when the scan reaches it.
- `<triangles>` layout: the stream count is the number of `<source>` elements, not the
  number of `<input>`s of the block, and zero sources is a division-by-zero panic.
- Torque: the lever arm is the body's world translation plus the offset, measured from
  the world origin, rather than the offset alone measured from the body.
- When there is no transform to visit, a held key writes nothing.

## Model

| member | source | states |
|---|---|---|
| PositionSource.PositionKey | src/main.rs:35-58 | succeeds exactly when `<vertices>` exists, has an input, and the first input's source is a fragment URL; the result is that fragment |
| PositionSource.LookupFindsFirstMatch | src/main.rs:64-77 | when source j is the first whose id equals the fragment (all earlier ones having ids), resolution yields j's payload: its float values, `[]` for another array kind, an abort if it has no array |
| PositionSource.LookupNoMatchIsEmpty | src/main.rs:62-78 | when every source has an id and none equals the fragment, the position buffer is empty |
| PositionSource.LookupMissingIdAborts | src/main.rs:64-65 | a source without id reached before any match aborts the load |
| PositionSource.FindPositionArray | src/main.rs:62-78 | the loop over the sources with its `break` computes exactly the first-match lookup |
| PositionSource.ResolvePositionBuffer | src/main.rs:35-78 | the resolution checks the key before scanning the sources; success implies a valid fragment key |
| Chunking.TriplesAt | src/main.rs:85-98 | reading by threes gives `len / 3` groups; group k is `(s[3k], s[3k+1], s[3k+2])`; trailing values are dropped |
| VertexDecoder.DecodeVertices | src/main.rs:81-98 | the counter loop yields exactly `len(buf) / 3` points, point k = `(buf[3k], buf[3k+1], buf[3k+2])`, in input order |
| IndexReshaper.CollectedIndicesAppend | src/main.rs:106-115 | collecting over `p + q` is collecting over `p` followed by `q` (declaration order is kept), failing iff either part fails |
| IndexReshaper.OtherBlocksAddNothing | src/main.rs:113 | a non-triangles block inserted anywhere changes nothing in the collected indices |
| IndexReshaper.CollectedIndicesOk | src/main.rs:108-109 | collection succeeds iff every triangles block carries `<p>` data |
| IndexReshaper.CollectIndices | src/main.rs:103-115 | the push loop returns the concatenation of the triangles blocks' data, or the abort |
| IndexReshaper.IntoShapeAt | src/main.rs:121 | when `t * 3 * n` is the length, `into_shape((t, 3, n))` succeeds and element `[i][c][m]` is the flat entry at `(3i + c) n + m` (row-major, last axis fastest) |
| IndexReshaper.RowMajorAt | src/main.rs:130 | iterating a view with rows of three visits `v[i][c]` at position `3i + c` |
| IndexReshaper.Stream0At | src/main.rs:121-123 | after `index_axis(Axis(2), 0)` and iteration, position k of the kept stream is `flat[k * n]`, and the stream has `3t` entries |
| IndexReshaper.KeepStream0Characterized | src/main.rs:118-123 | the reshape fails with division by zero when there are no sources, with a mismatch when `len % 3N != 0`, and otherwise keeps `3 * (len / 3N)` indices, the k-th being `flat[kN]` |
| IndexReshaper.RegroupFaces | src/main.rs:126-143 | the counter loop regroups the kept indices into `len / 3` faces, face k = the indices `3k, 3k+1, 3k+2` |
| IndexReshaper.FaceListAt | src/main.rs:118-143 | the face list exists iff `N > 0` and `len % 3N == 0`; it has `len / 3N` faces and face t is `(flat[3tN], flat[3tN + N], flat[3tN + 2N])` |
| TriangleFlattener.FlattenedAt | src/main.rs:157-165 | the soup has `3 × faces` points and entries `3t`, `3t+1`, `3t+2` are the points named by face t |
| TriangleFlattener.FlattenFaces | src/main.rs:153-165 | the push loop succeeds iff every face index is below the vertex count (else `IndexOutOfRange`), and then returns the soup |
| NormalSynthesizer.EdgeCrossIsPerpendicular | src/main.rs:171 | the un-normalised face normal is perpendicular to both triangle edges from the first corner |
| NormalSynthesizer.BroadcastNormalsAt | src/main.rs:167-175 | one normal per point; the three corners of triangle t carry the same normal, computed from that triangle's points alone |
| NormalSynthesizer.SynthesizeNormals | src/main.rs:167-175 | the chunk loop pushes exactly the broadcast normals |
| NormalSynthesizer.RenormalizeInPlace | src/main.rs:177-179 | the `iter_mut` pass replaces every normal by its normalisation and changes nothing else |
| NormalSynthesizer.MeshNormalsAt | src/main.rs:167-179 | the final normals have the soup's length and each triangle's three corners share one value |
| LoadMeshes.LoadGeometry | src/main.rs:31-191 | the step-by-step import of one geometry equals the composed pipeline, including which error aborts it first |
| LoadMeshes.ImportedMeshIsFlatShaded | src/main.rs:167-191 | an imported mesh has as many normals and UVs as points, whole triangles, one shared normal per triangle's corners, all UVs (0, 0) and the identity index buffer |
| LoadMeshes.AssembledIsFlatShaded | src/main.rs:167-181 | assembling any whole-triangle soup with its normals gives a flat-shaded mesh; in particular the index buffer `(0..len as u32)` is the identity of length `len mod 2^32` (exactly `len` below 2^32) and there is one (0, 0) UV per point |
| LoadMeshes.ImportedMeshCorners | src/main.rs:153-165 | an imported mesh has `3 × faces` points, and point `3t + c` is the decoded vertex named by corner c of face t |
| LoadMeshes.ImportMeshSucceeds | src/main.rs:33-165 | the import of a mesh succeeds iff the key, the source scan, the index collection, the reshape and all face lookups succeed |
| LoadMeshes.ImportSceneAt | src/main.rs:30-234 | the load succeeds iff every geometry imports, giving one mesh per geometry in order |
| LoadMeshes.ImportSceneFirstFailure | src/main.rs:30-60 | the first failing geometry's error is the error of the whole load |
| LoadMeshes.ImportSceneAllOk | src/main.rs:30-234 | when every geometry imports, the load yields exactly those meshes |
| LoadMeshes.LoadAllMeshes | src/main.rs:30-234 | the loop over the geometries computes the scene import |
| LoadMeshes.TetrahedronImport | src/main.rs:24-191 | a tetrahedron (4 points, 4 faces, one source) imports to 12 points, the expected soup, and the index buffer 0..11 |
| LoadMeshes.TetrahedronNormals | src/main.rs:167-179 | the tetrahedron's 12 normals are four runs of three, from the edge cross products (0,0,1), (0,-1,0), (1,0,0), (1,1,1) |
| Control.TorqueFormula | src/main.rs:248-258 | the torque of thrust (0, 0.00004, 0) about `translation + offset` is `(-(z + oz) 0.00004, 0, (x + ox) 0.00004)` |
| Control.TickLastKeyWins | src/main.rs:248-300 | with a key held and a transform present, every impulse becomes the thrust plus the torque of the last held key in A, S, D, F order, for the last transform visited |
| Control.TickForgetsOldImpulses | src/main.rs:257-258 | the values are overwritten, never accumulated: the outcome does not depend on the previous impulses |
| Control.TickWithoutEffect | src/main.rs:250-300 | with no key held, or no transform to visit, every impulse stays as it was |
| Control.ApplyKeyInPlace | src/main.rs:251-260 | the nested loops of one key's branch leave each impulse with the thrust and the torque of the last transform, or untouched without transforms |
| Control.RunTick | src/main.rs:244-303 | one frame of `test` applies the held keys' branches in the order A, S, D, F |

## Left out

- Reading the document (`Document::from_file`, `local_map`): the scene is given as the `Scene` datatypes. `local_map` is a hash map, so the real order of the geometries is unspecified; the model takes the order of a sequence.
- `Collider::from_bevy_mesh`, the spawn with `RigidBody`, `ExternalImpulse`, `PbrBundle`, material, spawn height and the -90° rotation: foreign physics and render calls with no logic of their own here.
- `main`, `setup` and `print_ball_altitude`: Bevy scheduling and scene set-up.
- The `println!` diagnostics, and the commented-out spawn code.
- Floating point: f32 rounding, and the f32 to physics-real casts, are not modelled. Vector normalisation is an uninterpreted parameter, so nothing is said about unit length or about the NaN that a degenerate triangle produces.
- ECS queries are sequences: `ext_impuls` is an array of `ExternalImpulse` records and `positions` the sequence of the translations of every `Transform` with a `RigidBody`, which in the program also includes the fixed ground plane.
- Keyboard polling is the set of held keys of the frame.
- NormalSynthesizer.SynthesizeNormals: requires a soup of whole triangles. On a partial last chunk `chunks(3)` would yield a short slice and the reads `vtx[1]`/`vtx[2]` at src/main.rs:169-170 would panic, but the soup always has `3 × faces` points (`FlattenedAt`), so that panic is not modelled.
- The collider: `Collider::from_bevy_mesh(...).unwrap()` can fail on a degenerate mesh and abort the load; that failure lies in the physics library and is not modelled.
- Index values are `nat` rather than 32-bit. The program does no arithmetic on them, and `as usize` widens without loss.
