/** The slice of a COLLADA scene document that the importer reads, as plain values,
    and the ways in which the import can abort. */
module Scene {

  datatype Option<T> = None | Some(value: T)

  /** A `source` attribute of an `<input>`: a same-document fragment `#id`, or anything else. */
  datatype Url = Fragment(fragment: string) | OtherUrl(text: string)

  datatype Input = Input(semantic: string, source: Url)

  /** The `<vertices>` element: its ordered list of `<input>`s. */
  datatype Vertices = Vertices(inputs: seq<Input>)

  /** The payload of a `<source>`: a `<float_array>` or some other array kind. */
  datatype ArrayElement = FloatArray(values: seq<real>) | OtherArray

  datatype Source = Source(id: Option<string>, arrayElement: Option<ArrayElement>)

  /** A primitive block of a mesh; `prim` is the flat `<p>` index data of a `<triangles>` block. */
  datatype Primitive = Triangles(prim: Option<seq<nat>>) | OtherPrimitive

  datatype Mesh = Mesh(sources: seq<Source>, vertices: Option<Vertices>, elements: seq<Primitive>)

  /** The element of a `<geometry>`: a `<mesh>` or another kind (convex mesh, spline, B-rep). */
  datatype GeometryElement = MeshElement(mesh: Mesh) | OtherElement

  datatype Geometry = Geometry(id: string, element: GeometryElement)

  /** One constructor per `unwrap()` (or arithmetic panic) on the import path. */
  datatype LoadError =
    | NotAMesh               // `as_mesh().unwrap()` on a non-mesh geometry
    | NoVertices             // the mesh has no `<vertices>`
    | NoVertexInputs         // `<vertices>` has no `<input>`
    | NotFragmentUrl         // the first input's source is not a fragment URL
    | SourceWithoutId        // `id.unwrap()` on a source visited before the match
    | SourceWithoutArray     // `array.unwrap()` on the matched source
    | TrianglesWithoutData   // `prim.unwrap()` on a triangles block
    | ZeroSourceCount        // `len / (3 * 0)`: division by zero
    | ReshapeMismatch        // `into_shape(...).unwrap()` on a length that does not fit
    | IndexOutOfRange        // `vtx[idx[k] as usize]` past the decoded points

  datatype Result<T> = Ok(value: T) | Err(error: LoadError)
}
