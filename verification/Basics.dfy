/** What several parts of the project share. */
module Basics {

  datatype Option<T> = None | Some(value: T)

  type Byte = b: int | 0 <= b < 256

  lemma Product(m: nat, x: int, y: int)
    ensures x <= y ==> m * x <= m * y
  {
  }
}
