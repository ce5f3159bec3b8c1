/** Packaging the soup into one renderable mesh: positions, normals, constant texture
    coordinates and the trivial index buffer `0, 1, 2, ...`. */
module MeshAssembler {
  import opened Vectors

  /** One texture coordinate pair. */
  datatype Uv = Uv(u: real, v: real)

  datatype MeshArtifact = MeshArtifact(positions: seq<Vec3>, normals: seq<Vec3>, uvs: seq<Uv>, indices: seq<nat>)

  /** The index buffer is built from `0..len as u32`: the length is cast to 32 bits first. */
  const U32Modulus: nat := 0x1_0000_0000

  /** `(0..len as u32).collect()`: the identity index buffer over the (32-bit) length. */
  function SequentialIndices(len: nat): seq<nat>
  {
    seq(len % U32Modulus, i => i)
  }

  /** `(0..len).map(|_| [0.0, 0.0]).collect()`: one (0, 0) pair per point. */
  function ZeroUvs(len: nat): seq<Uv>
  {
    seq(len, _ => Uv(0.0, 0.0))
  }

  function Assemble(positions: seq<Vec3>, normals: seq<Vec3>): MeshArtifact
  {
    MeshArtifact(positions, normals, ZeroUvs(|positions|), SequentialIndices(|positions|))
  }
}
