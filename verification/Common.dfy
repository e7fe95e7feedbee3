/** What several modules need: bytes, optional values and results, machine sizes and the
    arithmetic on them. */
module Common {

  const USIZE_MAX: nat := 0xFFFF_FFFF_FFFF_FFFF

  type byte = x: int | 0 <= x < 256
  type Bytes = seq<byte>

  datatype Option<+T> = None | Some(value: T)

  datatype Result<+T, +E> = Ok(value: T) | Err(error: E)

  function Min(a: nat, b: nat): nat { if a < b then a else b }

  function Max(a: nat, b: nat): nat { if a < b then b else a }

  function SaturatingSub(a: int, b: int): nat { if a < b then 0 else a - b }

  predicate NoDuplicates(xs: seq<nat>) { forall i, j :: 0 <= i < j < |xs| ==> xs[i] != xs[j] }
}
