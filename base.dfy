/** Fixed-width integers of the C# source and the failure wrappers used for its exceptions. */
module Base {

  /** C# `byte`. */
  type Byte = x: int | 0 <= x < 0x100
  /** C# `ushort`. */
  type U16 = x: int | 0 <= x < 0x1_0000
  /** C# `int`. */
  type I32 = x: int | -0x8000_0000 <= x < 0x8000_0000

  datatype Option<+T> = None | Some(value: T)

  /** The exception kinds the modelled code raises. */
  datatype Error =
    | InvalidOperation   // System.InvalidOperationException
    | Argument           // System.ArgumentException (also a repeated Dictionary key)
    | ArgumentOutOfRange // System.ArgumentOutOfRangeException
    | EndOfStream        // System.IO.EndOfStreamException
    | NotImplemented     // System.NotImplementedException
    | AssertionFailed    // a Debug.Assert that does not hold (a debug build stops there)

  datatype Result<+T> = Ok(value: T) | Err(error: Error)

  /** The increment of a `ushort` counter, which wraps to 0 after 65535. */
  function NextU16(x: U16): (r: U16)
    ensures x < 0xFFFF ==> r == x + 1
    ensures x == 0xFFFF ==> r == 0
  {
    if x == 0xFFFF then 0 else x + 1
  }

  /** Unchecked C# `int` arithmetic: the result taken modulo 2^32 into the signed range. */
  function WrapI32(x: int): (r: I32)
    ensures -0x8000_0000 <= x < 0x8000_0000 ==> r == x
    ensures (r - x) % 0x1_0000_0000 == 0
  {
    (x + 0x8000_0000) % 0x1_0000_0000 - 0x8000_0000
  }

  /** The `(byte)` cast of a non-negative count. */
  function TruncByte(n: nat): (r: Byte)
    ensures n < 0x100 ==> r == n
  {
    n % 0x100
  }

  /** The values lo, lo + 1, .., hi - 1, in order. */
  function Span(lo: Byte, hi: nat): (s: seq<Byte>)
    requires lo <= hi <= 0x100
    ensures |s| == hi - lo
    ensures forall i :: 0 <= i < |s| ==> s[i] == lo + i
    decreases hi - lo
  {
    if lo == hi then [] else if lo + 1 == 0x100 then [lo] else [lo] + Span(lo + 1, hi)
  }
}
