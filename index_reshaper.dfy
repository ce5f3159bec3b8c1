/** From the primitive blocks of a mesh to its face list: the `<p>` data of every
    triangles block is concatenated, viewed as a `[T, 3, N]` array in row-major order
    (N = number of sources of the mesh), stream 0 of every corner is kept, and the kept
    indices are regrouped into triples. */
module IndexReshaper {
  import opened Scene
  import opened Vectors
  import opened Chunking

  /* ---------- Index collection ---------- */

  /** The concatenation, in declaration order, of the index data of the triangles blocks;
      other blocks contribute nothing, and a triangles block without data aborts. */
  function CollectedIndices(elements: seq<Primitive>): (r: Result<seq<nat>>)
    ensures r.Err? ==> r == Err(TrianglesWithoutData)
  {
    if |elements| == 0 then Ok([])
    else
      var rest := CollectedIndices(elements[1..]);
      match elements[0]
      case OtherPrimitive => rest
      case Triangles(None) => Err(TrianglesWithoutData)
      case Triangles(Some(prim)) => if rest.Err? then rest else Ok(prim + rest.value)
  }

  /** Collecting over `p + q` is collecting over `p`, then over `q`, then concatenating. */
  lemma {:induction false} CollectedIndicesAppend(p: seq<Primitive>, q: seq<Primitive>)
    ensures CollectedIndices(p + q).Ok? <==> CollectedIndices(p).Ok? && CollectedIndices(q).Ok?
    ensures CollectedIndices(p + q).Ok? ==>
              CollectedIndices(p + q).value == CollectedIndices(p).value + CollectedIndices(q).value
  {
    if |p| > 0 {
      assert (p + q)[1..] == p[1..] + q;
      CollectedIndicesAppend(p[1..], q);
    } else {
      assert p + q == q;
    }
  }

  /** Blocks of another kind can be inserted anywhere without changing the collected indices. */
  lemma OtherBlocksAddNothing(p: seq<Primitive>, q: seq<Primitive>)
    ensures CollectedIndices(p + [OtherPrimitive] + q) == CollectedIndices(p + q)
  {
    CollectedIndicesAppend(p, [OtherPrimitive] + q);
    CollectedIndicesAppend(p, q);
    assert p + [OtherPrimitive] + q == p + ([OtherPrimitive] + q);
    assert ([OtherPrimitive] + q)[1..] == q;
    assert CollectedIndices([OtherPrimitive] + q) == CollectedIndices(q);
  }

  /** Collection succeeds exactly when every triangles block carries its data. */
  lemma {:induction false} CollectedIndicesOk(elements: seq<Primitive>)
    ensures CollectedIndices(elements).Ok? <==>
              forall i :: 0 <= i < |elements| ==> elements[i] != Triangles(None)
  {
    if |elements| > 0 {
      CollectedIndicesOk(elements[1..]);
      assert forall i :: 1 <= i < |elements| ==> elements[i] == elements[1..][i - 1];
    }
  }

  /** The loop over the primitive blocks that pushes every index of every triangles block. */
  method CollectIndices(elements: seq<Primitive>) returns (r: Result<seq<nat>>)
    ensures r == CollectedIndices(elements)
  {
    var finalIndices: seq<nat> := [];
    var i := 0;
    while i < |elements|
      invariant 0 <= i <= |elements|
      invariant CollectedIndices(elements[..i]) == Ok(finalIndices)
    {
      CollectedIndicesAppend(elements[..i], [elements[i]]);
      assert elements[..i + 1] == elements[..i] + [elements[i]];
      match elements[i] {
        case Triangles(prim) =>
          if prim.None? {
            CollectedIndicesAppend(elements[..i + 1], elements[i + 1..]);
            assert elements[..i + 1] + elements[i + 1..] == elements;
            return Err(TrianglesWithoutData);
          }
          var data := prim.value;
          assert [elements[i]][1..] == [];
          assert data + [] == data;
          assert CollectedIndices([elements[i]]) == Ok(data);
          var j := 0;
          ghost var before := finalIndices;
          while j < |data|
            invariant 0 <= j <= |data|
            invariant finalIndices == before + data[..j]
          {
            finalIndices := finalIndices + [data[j]];
            j := j + 1;
          }
          assert data[..j] == data;
          assert CollectedIndices(elements[..i + 1]) == Ok(finalIndices);
        case OtherPrimitive =>
          assert [elements[i]][1..] == [];
          assert CollectedIndices([elements[i]]) == Ok([]);
          assert finalIndices + [] == finalIndices;
      }
      i := i + 1;
    }
    assert elements[..i] == elements;
    return Ok(finalIndices);
  }

  /* ---------- Reshape and stream selection ---------- */

  /** Row `i` of the `[t][3][n]` view: the three runs of `n` indices of triangle `i`. */
  function Corners(flat: seq<nat>, i: nat, n: nat): (r: seq<seq<nat>>)
    requires (i + 1) * 3 * n <= |flat|
    ensures |r| == 3 && |r[0]| == n && |r[1]| == n && |r[2]| == n
  {
    var a := i * 3 * n;
    [flat[a .. a + n], flat[a + n .. a + 2 * n], flat[a + 2 * n .. a + 3 * n]]
  }

  lemma RowBound(i: nat, t: nat, n: nat)
    requires i < t
    ensures (i + 1) * 3 * n <= t * 3 * n
  {
    assert (i + 1) * (3 * n) <= t * (3 * n);
  }

  /** `into_shape((t, 3, n))`: the flat list viewed as a `[t][3][n]` array in row-major
      order, which works only when the three dimensions multiply to the length. */
  function IntoShape(flat: seq<nat>, t: nat, n: nat): (r: Result<seq<seq<seq<nat>>>>)
    ensures r.Ok? <==> t * 3 * n == |flat|
    ensures r.Err? ==> r.error == ReshapeMismatch
    ensures r.Ok? ==> |r.value| == t
    ensures r.Ok? ==> forall i :: 0 <= i < t ==>
              (i + 1) * 3 * n <= |flat| && r.value[i] == Corners(flat, i, n)
  {
    if t * 3 * n != |flat| then Err(ReshapeMismatch)
    else Ok(seq(t, i requires 0 <= i < t => RowBound(i, t, n); Corners(flat, i, n)))
  }

  /** Element `[i][c][m]` of the `[t][3][n]` view is the flat entry at `(3i + c) n + m`:
      the view is row-major, with the last axis varying fastest. */
  lemma IntoShapeAt(flat: seq<nat>, t: nat, n: nat, i: nat, c: nat, m: nat)
    requires t * 3 * n == |flat| && i < t && c < 3 && m < n
    ensures IntoShape(flat, t, n).Ok?
    ensures (3 * i + c) * n + m < |flat|
    ensures IntoShape(flat, t, n).value[i][c][m] == flat[(3 * i + c) * n + m]
  {
    RowBound(i, t, n);
    var start := i * 3 * n;
    CornerOffset(i, n, c);
    var run := Corners(flat, i, n)[c];
    assert run == flat[start + c * n .. start + c * n + n] by {
      if c == 0 {
        assert c * n == 0;
      } else if c == 1 {
        assert c * n == n;
      } else {
        assert c * n == 2 * n;
      }
    }
    assert run[m] == flat[start + c * n + m];
  }

  lemma CornerOffset(i: nat, n: nat, c: nat)
    requires c < 3
    ensures (3 * i + c) * n == i * 3 * n + c * n
    ensures (i + 1) * 3 * n == i * 3 * n + 3 * n
    ensures c * n + n <= 3 * n
  {
  }

  /** `index_axis(Axis(2), 0)`: the element at position 0 of the innermost axis. */
  function IndexAxis2Zero(a: seq<seq<seq<nat>>>): (r: seq<seq<nat>>)
    requires forall i :: 0 <= i < |a| ==> forall c :: 0 <= c < |a[i]| ==> |a[i][c]| > 0
    ensures |r| == |a| && forall i :: 0 <= i < |a| ==> |r[i]| == |a[i]|
    ensures forall i, c :: 0 <= i < |a| && 0 <= c < |a[i]| ==> r[i][c] == a[i][c][0]
  {
    seq(|a|, i requires 0 <= i < |a| => seq(|a[i]|, c requires 0 <= c < |a[i]| => a[i][c][0]))
  }

  /** The elements of a two-dimensional view in row-major (logical) iteration order. */
  function RowMajor(v: seq<seq<nat>>): seq<nat>
  {
    if |v| == 0 then [] else v[0] + RowMajor(v[1..])
  }

  /** Iterating a view whose rows have three entries visits `v[i][c]` at position `3i + c`. */
  lemma {:induction false} RowMajorAt(v: seq<seq<nat>>, i: nat, c: nat)
    requires forall j :: 0 <= j < |v| ==> |v[j]| == 3
    ensures |RowMajor(v)| == 3 * |v|
    ensures i < |v| && c < 3 ==> RowMajor(v)[3 * i + c] == v[i][c]
  {
    if |v| > 0 {
      RowMajorAt(v[1..], if i > 0 then i - 1 else 0, c);
    }
  }

  /** Lines 118-123: divide by `3n` to get the triangle count, reshape, and keep stream 0
      of every corner, listed in iteration order. */
  function KeepStream0(flat: seq<nat>, n: nat): Result<seq<nat>>
  {
    if n == 0 then Err(ZeroSourceCount)
    else
      var shaped := IntoShape(flat, |flat| / (3 * n), n);
      if shaped.Err? then Err(shaped.error)
      else Ok(RowMajor(IndexAxis2Zero(shaped.value)))
  }

  lemma DivModMul(m: nat, n: nat)
    requires n > 0
    ensures (m / (3 * n)) * 3 * n == m <==> m % (3 * n) == 0
  {
    var q, d := m / (3 * n), 3 * n;
    assert m == q * d + m % d;
    assert q * 3 * n == q * d;
  }

  lemma CornerStart(flat: seq<nat>, i: nat, n: nat, c: nat)
    requires n > 0 && c < 3 && (i + 1) * 3 * n <= |flat|
    ensures i * 3 * n + c * n < |flat|
    ensures Corners(flat, i, n)[c][0] == flat[i * 3 * n + c * n]
  {
    RowStart(i, n);
    if c == 0 {
      assert c * n == 0;
    } else if c == 1 {
      assert c * n == n;
    } else {
      assert c * n == 2 * n;
    }
  }

  lemma RowStart(i: nat, n: nat)
    ensures (i + 1) * 3 * n == i * 3 * n + 3 * n
  {
  }

  lemma SplitProduct(k: nat, n: nat)
    ensures k * n == (k / 3) * 3 * n + (k % 3) * n
  {
    assert k == (k / 3) * 3 + k % 3;
  }

  /** Position `k` of the stream-0 list of a `[t][3][n]` view is `flat[k n]`. */
  lemma Stream0At(flat: seq<nat>, t: nat, n: nat, k: nat)
    requires n > 0 && t * 3 * n == |flat|
    ensures IntoShape(flat, t, n).Ok?
    ensures |RowMajor(IndexAxis2Zero(IntoShape(flat, t, n).value))| == 3 * t
    ensures k < 3 * t ==>
              k * n < |flat| && RowMajor(IndexAxis2Zero(IntoShape(flat, t, n).value))[k] == flat[k * n]
  {
    var a := IntoShape(flat, t, n).value;
    var v := IndexAxis2Zero(a);
    var i, c := k / 3, k % 3;
    RowMajorAt(v, i, c);
    if k < 3 * t {
      assert k == 3 * i + c;
      RowBound(i, t, n);
      assert v[i][c] == a[i][c][0];
      CornerStart(flat, i, n, c);
      SplitProduct(k, n);
    }
  }

  /** The reshape succeeds exactly when there is at least one source and the length is a
      multiple of `3n`; it then keeps every `n`-th index, starting with the first. */
  lemma KeepStream0Characterized(flat: seq<nat>, n: nat)
    ensures KeepStream0(flat, n).Ok? <==> n > 0 && |flat| % (3 * n) == 0
    ensures n == 0 ==> KeepStream0(flat, n) == Err(ZeroSourceCount)
    ensures n > 0 && |flat| % (3 * n) != 0 ==> KeepStream0(flat, n) == Err(ReshapeMismatch)
    ensures KeepStream0(flat, n).Ok? ==>
              |KeepStream0(flat, n).value| == 3 * (|flat| / (3 * n)) &&
              forall k :: 0 <= k < |KeepStream0(flat, n).value| ==>
                k * n < |flat| && KeepStream0(flat, n).value[k] == flat[k * n]
  {
    if n > 0 {
      var t := |flat| / (3 * n);
      DivModMul(|flat|, n);
      if t * 3 * n == |flat| {
        Stream0At(flat, t, n, 0);
        forall k | 0 <= k < 3 * t
          ensures k * n < |flat| && KeepStream0(flat, n).value[k] == flat[k * n]
        {
          Stream0At(flat, t, n, k);
        }
      }
    }
  }

  /** The regrouping loop over the kept indices, with a scratch `[0, 0, 0]` filled one
      index at a time and pushed on every third index. */
  method RegroupFaces(stream: seq<nat>) returns (indices: seq<Face>)
    ensures |indices| == |stream| / 3
    ensures indices == Triples(stream)
  {
    indices := [];
    var temp: Face := Triple(0, 0, 0);
    var counter := 0;
    var i := 0;
    while i < |stream|
      invariant 0 <= i <= |stream|
      invariant 0 <= counter < 3 && i == 3 * |indices| + counter
      invariant counter >= 1 ==> temp.x == stream[i - counter]
      invariant counter == 2 ==> temp.y == stream[i - 1]
      invariant forall k :: 0 <= k < |indices| ==>
                  indices[k] == Triple(stream[3 * k], stream[3 * k + 1], stream[3 * k + 2])
    {
      var v := stream[i];
      counter := counter + 1;
      if counter == 1 {
        temp := temp.(x := v);
      } else if counter == 2 {
        temp := temp.(y := v);
      } else {
        temp := temp.(z := v);
        indices := indices + [temp];
        temp := Triple(0, 0, 0);
        counter := 0;
      }
      i := i + 1;
    }
    TriplesUnique(stream, indices);
  }

  /** The face list the program builds from the concatenated indices and source count. */
  function FaceList(flat: seq<nat>, n: nat): Result<seq<Face>>
  {
    var kept := KeepStream0(flat, n);
    if kept.Err? then Err(kept.error) else Ok(Triples(kept.value))
  }

  /** On success the mesh has `|flat| / (3n)` triangles, and triangle `t` takes the
      stream-0 index of its three corners: `flat[3tn]`, `flat[3tn + n]`, `flat[3tn + 2n]`. */
  lemma FaceListAt(flat: seq<nat>, n: nat, t: nat)
    ensures FaceList(flat, n).Ok? <==> n > 0 && |flat| % (3 * n) == 0
    ensures FaceList(flat, n).Ok? ==> |FaceList(flat, n).value| == |flat| / (3 * n)
    ensures FaceList(flat, n).Ok? && t < |FaceList(flat, n).value| ==>
              3 * t * n + 2 * n < |flat| &&
              FaceList(flat, n).value[t] == Triple(flat[3 * t * n], flat[3 * t * n + n], flat[3 * t * n + 2 * n])
  {
    KeepStream0Characterized(flat, n);
    var kept := KeepStream0(flat, n);
    if kept.Ok? {
      TriplesAt(kept.value, t);
      if t < |kept.value| / 3 {
        assert (3 * t + 1) * n == 3 * t * n + n;
        assert (3 * t + 2) * n == 3 * t * n + 2 * n;
      }
    }
  }
}
