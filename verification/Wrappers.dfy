/** Success and absence, as the rest of the project uses them. */
module Wrappers {

  datatype Option<+T> = None | Some(value: T)

  /** A call that returned, or that raised an exception before changing anything it had not yet changed. */
  datatype Outcome<+T> = Returned(value: T) | Raised

  predicate NoDuplicates<T(==)>(xs: seq<T>) {
    forall i, j :: 0 <= i < j < |xs| ==> xs[i] != xs[j]
  }
}
