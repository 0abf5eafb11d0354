/** Values shared by every part of the model: bytes, optional values and the
    Python exceptions that the modelled code can raise. */
module Base {
  /** One entry of a Python `bytes` or `bytearray`. */
  type byte = x: int | 0 <= x < 256

  /** A 32-bit unsigned pattern; used for the bits of an IEEE-754 single. */
  type u32 = x: int | 0 <= x < 0x1_0000_0000

  /** A Python value that may be `None`. */
  datatype Option<T> = None | Some(value: T)

  /** The exceptions that the modelled code can raise. */
  datatype Exception =
    | IndexError      // a list index past the end
    | ValueError      // `list.index` of an element that is not in the list
    | TypeError       // a slice assignment whose right-hand side is `None`
    | StructError     // `struct.pack` of an integer outside the format's range
    | AttributeError  // a call of a method the class does not have

  /** A call either returns a value or raises one of the exceptions above. */
  datatype Result<T> = Ok(value: T) | Raise(error: Exception)

  /** `[0] * n` */
  function Zeros(n: nat): (r: seq<byte>)
    ensures |r| == n && forall i :: 0 <= i < n ==> r[i] == 0
  {
    seq(n, _ => 0)
  }
}
