/** Small shared definitions: an optional value for Go's comma-ok idiom (`v, ok := ...`) and duplicate-freedom. */
module Wrappers {

  datatype Option<+T> = None | Some(value: T)

  /** True when no two positions of s hold the same element. */
  predicate NoDuplicates<T(==)>(s: seq<T>)
  {
    forall i, j :: 0 <= i < j < |s| ==> s[i] != s[j]
  }
}
