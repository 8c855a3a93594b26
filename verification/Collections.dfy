/** What several parts of the model share: optional values, and sequences without repetition. */
module Collections {
  datatype Option<T> = None | Some(value: T)

  predicate Distinct<T(==)>(q: seq<T>) {
    forall i, j :: 0 <= i < j < |q| ==> q[i] != q[j]
  }

  // The sequence without its element at position i.
  function Remove<T>(q: seq<T>, i: nat): (r: seq<T>)
    requires i < |q|
    ensures |r| == |q| - 1
  {
    q[..i] + q[i + 1..]
  }
}
