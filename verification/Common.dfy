/** Small definitions several parts of the model share. */
module Common {
  datatype Option<+T> = None | Some(value: T)

  ghost predicate Distinct(s: seq<int>) {
    forall i: int, j: int :: 0 <= i < j < |s| ==> s[i] != s[j]
  }
}
