/** Small shared vocabulary: optional values, results and lists without repetition. */
module Prelude {
  datatype Option<+T> = None | Some(value: T)

  datatype Result<+T, +E> = Ok(value: T) | Err(error: E)

  function AbsR(x: real): (r: real)
    ensures r >= 0.0
  {
    if x < 0.0 then -x else x
  }

  ghost predicate Distinct<T>(s: seq<T>) {
    forall i, j :: 0 <= i < j < |s| ==> s[i] != s[j]
  }

  /** The last `n` elements, or all of them when there are fewer. */
  function Tail<T>(s: seq<T>, n: nat): (r: seq<T>) {
    if |s| <= n then s else s[|s| - n..]
  }
}
