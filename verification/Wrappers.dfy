/** What is used throughout the model: identifiers, a value that may be absent, a call that may fail, and
    a little arithmetic. */
module Wrappers {
  /** Opaque identifiers, compared for equality only. */
  type Uuid = nat

  datatype Option<+T> = None | Some(value: T) {
    function GetOr(default: T): T {
      if Some? then value else default
    }
  }

  datatype Result<+T, +E> = Ok(value: T) | Err(error: E)

  /** No two rows have the same id. */
  predicate Distinct<T>(rows: seq<T>, idOf: T -> Uuid) {
    forall i, j :: 0 <= i < j < |rows| ==> idOf(rows[i]) != idOf(rows[j])
  }

  /** `n` as a non-negative number: 0 when it is negative. */
  function AtLeastZero(n: int): nat {
    if n < 0 then 0 else n
  }

  function Min(a: int, b: int): int {
    if a < b then a else b
  }

  function Max(a: int, b: int): int {
    if a < b then b else a
  }
}
