/** Sequence helpers shared by the hook and the DAG checks. */
module Seqs {

  /** No element occurs twice. */
  predicate Distinct<T(==)>(s: seq<T>) {
    forall i, j :: 0 <= i < j < |s| ==> s[i] != s[j]
  }

  /** The elements of a list as a set, as Python's `set` builds it from a list. */
  function SetOf<T(!new)>(s: seq<T>): set<T> {
    set x | x in s
  }
}
