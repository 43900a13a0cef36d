/** Integers as the C sources use them: bytes, and division that truncates toward zero. */
module CInt {

  newtype byte = b: int | 0 <= b < 0x100

  datatype Option<+T> = None | Some(value: T)

  const NUL: byte := 0
  const NEWLINE: byte := 10
  const SPACE: byte := 32

  /** C's `a / b` for a positive divisor. */
  function CDiv(a: int, b: int): int
    requires b > 0
  {
    if a >= 0 then a / b else -((-a) / b)
  }

  /** C's `a % b` for a positive divisor: the remainder takes the sign of `a`. */
  function CMod(a: int, b: int): int
    requires b > 0
  {
    a - b * CDiv(a, b)
  }

  /** The text of an ASCII literal, as bytes. */
  function Ascii(s: string): (bs: seq<byte>)
    requires forall i :: 0 <= i < |s| ==> s[i] < 128 as char
    ensures |bs| == |s|
    ensures forall i :: 0 <= i < |s| ==> bs[i] == s[i] as byte
  {
    seq(|s|, i requires 0 <= i < |s| => s[i] as byte)
  }

  /** `n` copies of `b`. */
  function Repeat(b: byte, n: nat): (bs: seq<byte>)
    ensures |bs| == n && forall i :: 0 <= i < n ==> bs[i] == b
  {
    seq(n, _ => b)
  }

  /** The index of the first `b` at or after `from`, or `|s|`. */
  function IndexFrom(s: seq<byte>, b: byte, from: nat): (k: nat)
    requires from <= |s|
    ensures from <= k <= |s|
    ensures forall i :: from <= i < k ==> s[i] != b
    ensures k < |s| ==> s[k] == b
    decreases |s| - from
  {
    if from == |s| || s[from] == b then from else IndexFrom(s, b, from + 1)
  }
}
