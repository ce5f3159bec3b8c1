/** Finding the position buffer of a mesh: the first `<input>` of `<vertices>` names a
    source by fragment, and the first `<source>` with that id supplies its float array. */
module PositionSource {
  import opened Scene

  /** The fragment named by the first input of the mesh's `<vertices>`, or why there is none. */
  function PositionKey(mesh: Mesh): (r: Result<string>)
    ensures r.Ok? <==> mesh.vertices.Some? && |mesh.vertices.value.inputs| > 0
                       && mesh.vertices.value.inputs[0].source.Fragment?
    ensures r.Ok? ==> r.value == mesh.vertices.value.inputs[0].source.fragment
  {
    match mesh.vertices
    case None => Err(NoVertices)
    case Some(vertices) =>
      if |vertices.inputs| == 0 then Err(NoVertexInputs)
      else match vertices.inputs[0].source
        case Fragment(fragment) => Ok(fragment)
        case OtherUrl(_) => Err(NotFragmentUrl)
  }

  /** What the matched source contributes: its float values, nothing for another array
      kind, and an abort when it carries no array at all. */
  function Payload(source: Source): Result<seq<real>>
  {
    match source.arrayElement
    case None => Err(SourceWithoutArray)
    case Some(FloatArray(values)) => Ok(values)
    case Some(OtherArray) => Ok([])
  }

  /** The scan over the sources in order, stopping at the first whose id is `fragment`.
      Every source visited must have an id; when none matches the buffer stays empty. */
  function Lookup(sources: seq<Source>, fragment: string): Result<seq<real>>
  {
    if |sources| == 0 then Ok([])
    else match sources[0].id
      case None => Err(SourceWithoutId)
      case Some(id) => if id == fragment then Payload(sources[0]) else Lookup(sources[1..], fragment)
  }

  /** The whole position-source resolution of one mesh. */
  function ResolvePositions(mesh: Mesh): Result<seq<real>>
  {
    match PositionKey(mesh)
    case Err(e) => Err(e)
    case Ok(fragment) => Lookup(mesh.sources, fragment)
  }

  /** The sources before index `j` all have ids different from `fragment`. */
  ghost predicate NoMatchBefore(sources: seq<Source>, fragment: string, j: nat)
    requires j <= |sources|
  {
    forall i :: 0 <= i < j ==> sources[i].id.Some? && sources[i].id.value != fragment
  }

  /** When source `j` is the first whose id is `fragment`, the lookup yields its payload. */
  lemma {:induction false} LookupFindsFirstMatch(sources: seq<Source>, fragment: string, j: nat)
    requires j < |sources| && NoMatchBefore(sources, fragment, j)
    requires sources[j].id == Some(fragment)
    ensures Lookup(sources, fragment) == Payload(sources[j])
  {
    if j > 0 {
      assert NoMatchBefore(sources[1..], fragment, j - 1) by {
        forall i | 0 <= i < j - 1 ensures sources[1..][i] == sources[i + 1] { }
      }
      LookupFindsFirstMatch(sources[1..], fragment, j - 1);
    }
  }

  /** When every source has an id and none is `fragment`, the position buffer is empty. */
  lemma {:induction false} LookupNoMatchIsEmpty(sources: seq<Source>, fragment: string)
    requires NoMatchBefore(sources, fragment, |sources|)
    ensures Lookup(sources, fragment) == Ok([])
  {
    if |sources| > 0 {
      assert NoMatchBefore(sources[1..], fragment, |sources| - 1) by {
        forall i | 0 <= i < |sources| - 1 ensures sources[1..][i] == sources[i + 1] { }
      }
      LookupNoMatchIsEmpty(sources[1..], fragment);
    }
  }

  /** A source without id that is reached before any match aborts the lookup. */
  lemma {:induction false} LookupMissingIdAborts(sources: seq<Source>, fragment: string, j: nat)
    requires j < |sources| && NoMatchBefore(sources, fragment, j)
    requires sources[j].id.None?
    ensures Lookup(sources, fragment) == Err(SourceWithoutId)
  {
    if j > 0 {
      assert NoMatchBefore(sources[1..], fragment, j - 1) by {
        forall i | 0 <= i < j - 1 ensures sources[1..][i] == sources[i + 1] { }
      }
      LookupMissingIdAborts(sources[1..], fragment, j - 1);
    }
  }

  /** The loop over the sources with its `break`: returns what `Lookup` describes. */
  method FindPositionArray(sources: seq<Source>, fragment: string) returns (r: Result<seq<real>>)
    ensures r == Lookup(sources, fragment)
  {
    var positions: seq<real> := [];
    var i := 0;
    while i < |sources|
      invariant 0 <= i <= |sources|
      invariant Lookup(sources, fragment) == Lookup(sources[i..], fragment)
    {
      var source := sources[i];
      if source.id.None? {
        return Err(SourceWithoutId);
      }
      if source.id.value == fragment {
        if source.arrayElement.None? {
          return Err(SourceWithoutArray);
        }
        match source.arrayElement.value {
          case FloatArray(values) => positions := values;
          case OtherArray =>
        }
        return Ok(positions);
      }
      i := i + 1;
    }
    return Ok(positions);
  }

  /** Resolution of a mesh's position buffer, in the order the program checks things:
      the key and its URL kind first, then the scan over the sources. */
  method ResolvePositionBuffer(mesh: Mesh) returns (r: Result<seq<real>>)
    ensures r == ResolvePositions(mesh)
    ensures r.Ok? ==> PositionKey(mesh).Ok?
  {
    var key := PositionKey(mesh);
    if key.Err? {
      return Err(key.error);
    }
    r := FindPositionArray(mesh.sources, key.value);
  }
}
