/** Reading a flat sequence three values at a time, which the importer does twice:
    to turn coordinates into points and to turn corner indices into faces. */
module Chunking {
  import opened Vectors

  /** Consecutive groups of three, in order; one or two trailing values are dropped. */
  function Triples<T>(s: seq<T>): seq<Triple<T>>
  {
    if |s| < 3 then [] else [Triple(s[0], s[1], s[2])] + Triples(s[3..])
  }

  /** `Triples(s)` has `|s| / 3` entries, and entry `k` is `(s[3k], s[3k+1], s[3k+2])`. */
  lemma {:induction false} TriplesAt<T>(s: seq<T>, k: nat)
    ensures |Triples(s)| == |s| / 3
    ensures k < |s| / 3 ==> Triples(s)[k] == Triple(s[3 * k], s[3 * k + 1], s[3 * k + 2])
  {
    if |s| >= 3 {
      TriplesAt(s[3..], if k > 0 then k - 1 else 0);
    }
  }

  /** The entrywise description determines the chunking: any sequence of `|s| / 3`
      triples that agrees with it entry by entry is `Triples(s)`. */
  lemma TriplesUnique<T>(s: seq<T>, r: seq<Triple<T>>)
    requires |r| == |s| / 3
    requires forall k :: 0 <= k < |r| ==> r[k] == Triple(s[3 * k], s[3 * k + 1], s[3 * k + 2])
    ensures r == Triples(s)
  {
    TriplesAt(s, 0);
    forall k | 0 <= k < |r| ensures r[k] == Triples(s)[k] {
      TriplesAt(s, k);
    }
  }
}
