/** What several modules share. */
module Basics {
  type Address = nat   // 0 is the empty address

  const U32: nat := 0x1_0000_0000

  datatype Option<+T> = None | Some(value: T)

  predicate Distinct<T(==)>(xs: seq<T>) {
    forall i, j :: 0 <= i < j < |xs| ==> xs[i] != xs[j]
  }
}
