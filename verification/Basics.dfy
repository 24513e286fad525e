/** What several components share. */
module Basics {
  datatype Option<+T> = None | Some(value: T)

  function Min(a: nat, b: nat): nat { if a <= b then a else b }

  lemma MulMono(a: int, b: int, c: nat)
    requires a <= b
    ensures a * c <= b * c
  {}
}

module Parsing {
  /** A parse that succeeds or raises. */
  datatype Result<+T> = Ok(value: T) | Err
}
