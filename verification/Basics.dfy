/** The few types that every part of the model shares. */
module Basics {

  /** A value that may be missing; the C code's `false` return is `None`. */
  datatype Option<+T> = None | Some(value: T)

  /** One octet. Masks and shifts of unsigned words are written as remainders and quotients. */
  type Byte = x: int | 0 <= x < 256

  /** One output after another; an error in either is an error of both. */
  function Join(a: Option<seq<Byte>>, b: Option<seq<Byte>>): Option<seq<Byte>> {
    if a.Some? && b.Some? then Some(a.value + b.value) else None
  }

  const TWO_TO_THE_31: int := 0x8000_0000
  const TWO_TO_THE_32: int := 0x1_0000_0000
  const TWO_TO_THE_63: int := 0x8000_0000_0000_0000
  const TWO_TO_THE_64: int := 0x1_0000_0000_0000_0000
}
