/** Vocabulary shared by the models of the bridge contracts: machine integers,
    bytes, and the datatypes that stand for a call that may abort. */
module Prelude {

  const MAX_U32: nat := 0xFFFF_FFFF
  const MAX_U64: nat := 0xFFFF_FFFF_FFFF_FFFF
  const MAX_U128: nat := 0xFFFF_FFFF_FFFF_FFFF_FFFF_FFFF_FFFF_FFFF
  const MAX_U256: nat := 0xFFFF_FFFF_FFFF_FFFF_FFFF_FFFF_FFFF_FFFF_FFFF_FFFF_FFFF_FFFF_FFFF_FFFF_FFFF_FFFF

  type U64 = x: nat | x <= MAX_U64
  type U128 = x: nat | x <= MAX_U128
  type U256 = x: nat | x <= MAX_U256
  type Byte = x: nat | x < 256
  type Bytes = seq<Byte>

  /** The outcome of a call that either returns or aborts; an abort undoes the whole call. */
  datatype Option<+T> = None | Some(value: T) {
    predicate IsFailure() {
      None?
    }

    function PropagateFailure<U>(): Option<U>
      requires None?
    {
      None
    }

    function Extract(): T
      requires Some?
    {
      value
    }
  }

  function Min(a: int, b: int): int {
    if a < b then a else b
  }

  function Max(a: int, b: int): int {
    if a < b then b else a
  }
}
