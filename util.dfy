/** Small shared helpers: an optional value (Java's nullable references) and
    sequence flattening (batches handed to a bulk insert). */
module Util {

  /** A Java reference that may be null. */
  datatype Option<+T> = None | Some(value: T)

  /** The concatenation of a sequence of batches, in order. */
  function Flatten<T>(chunks: seq<seq<T>>): seq<T>
  {
    if chunks == [] then [] else Flatten(chunks[..|chunks| - 1]) + chunks[|chunks| - 1]
  }

  /** Every batch handed to a bulk insert is non-empty and holds at most `limit` rows. */
  predicate ChunksBounded<T>(chunks: seq<seq<T>>, limit: nat)
  {
    forall i :: 0 <= i < |chunks| ==> 0 < |chunks[i]| <= limit
  }

  function MinReal(a: real, b: real): (m: real)
    ensures m <= a && m <= b && (m == a || m == b)
  {
    if a <= b then a else b
  }

  function MaxReal(a: real, b: real): (m: real)
    ensures a <= m && b <= m && (m == a || m == b)
  {
    if a >= b then a else b
  }
}
