/** Small shared vocabulary: optional values, fallible results and fixed-width numbers. */
module Common {

  datatype Option<+T> = None | Some(value: T)

  /** A fallible outcome.  Error texts are not modelled, so there is one failure. */
  datatype Result<+T> = Ok(value: T) | Err {
    predicate IsFailure() { Err? }

    function PropagateFailure<U>(): Result<U>
      requires Err?
    { Err }

    function Extract(): T
      requires Ok?
    { value }
  }

  const U32_MAX: nat := 0xFFFF_FFFF
  const U64_MAX: nat := 0xFFFF_FFFF_FFFF_FFFF

  type byte = b: int | 0 <= b < 256
  type u32 = n: nat | n <= U32_MAX
  type u64 = n: nat | n <= U64_MAX

  function Min(a: nat, b: nat): nat { if a <= b then a else b }
}
