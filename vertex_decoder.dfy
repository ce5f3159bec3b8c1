/** Turning the flat position buffer into points with the program's counter-driven loop. */
module VertexDecoder {
  import opened Vectors
  import opened Chunking

  /** Reads the buffer once, filling a scratch point one coordinate per value and pushing
      it on every third value; the scratch point is reset to (1, 1, 1) after each push, so
      one or two trailing values never reach the output. */
  method DecodeVertices(buffer: seq<real>) returns (vertex: seq<Vec3>)
    ensures |vertex| == |buffer| / 3
    ensures vertex == Triples(buffer)
  {
    vertex := [];
    var temp := Triple(1.0, 1.0, 1.0);
    var counter := 0;
    var i := 0;
    while i < |buffer|
      invariant 0 <= i <= |buffer|
      invariant 0 <= counter < 3 && i == 3 * |vertex| + counter
      invariant counter >= 1 ==> temp.x == buffer[i - counter]
      invariant counter == 2 ==> temp.y == buffer[i - 1]
      invariant forall k :: 0 <= k < |vertex| ==>
                  vertex[k] == Triple(buffer[3 * k], buffer[3 * k + 1], buffer[3 * k + 2])
    {
      var v := buffer[i];
      counter := counter + 1;
      if counter == 1 {
        temp := temp.(x := v);
      } else if counter == 2 {
        temp := temp.(y := v);
      } else {
        temp := temp.(z := v);
        vertex := vertex + [temp];
        temp := Triple(1.0, 1.0, 1.0);
        counter := 0;
      }
      i := i + 1;
    }
    TriplesUnique(buffer, vertex);
  }
}
