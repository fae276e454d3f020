/** Sequence vocabulary shared by the bingo modules. */
module Seqs {

  /** No element occurs twice in `s`. */
  predicate Distinct<T(==)>(s: seq<T>) {
    forall i, j :: 0 <= i < j < |s| ==> s[i] != s[j]
  }

  /** Every element of `s` is an element of `pool`. */
  predicate DrawnFrom<T(==)>(s: seq<T>, pool: seq<T>) {
    forall x :: x in s ==> x in pool
  }

  /** Row-major reading of a grid: the rows laid end to end. */
  function Flatten<T>(rows: seq<seq<T>>): seq<T> {
    if |rows| == 0 then [] else rows[0] + Flatten(rows[1..])
  }
}
