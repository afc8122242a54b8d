/** Small definitions shared by the other modules. */
module Basics {

  /** A value the program may be missing: a SQL NULL or a JSON key that is absent. */
  datatype Option<+T> = None | Some(value: T)

  /** No two positions of the sequence hold the same value. */
  ghost predicate Distinct<T>(s: seq<T>) {
    forall i, j :: 0 <= i < j < |s| ==> s[i] != s[j]
  }
}
