/** Optional values: a missing request field, a lookup that finds nothing. */
module Wrappers {
  datatype Option<+T> = None | Some(value: T)
}

/** Facts about sequences used by the membership lists. */
module Seqs {
  /** No element occurs twice. */
  predicate Distinct<T(==)>(s: seq<T>) {
    forall i, j :: 0 <= i < j < |s| ==> s[i] != s[j]
  }
}
