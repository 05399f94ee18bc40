/** Bytes of text and memory, as the C code sees them through `char` and `unsigned char`. */
module Bytes {
  type Byte = b: int | 0 <= b < 256

  const NUL: Byte := 0
  const ZERO: Byte := 48
  const MINUS: Byte := 45
  const PLUS: Byte := 43

  predicate IsDigit(b: Byte) { ZERO <= b <= ZERO + 9 }

  /** `strlen`: the bytes before the first NUL. */
  function StrLen(s: seq<Byte>): (n: nat)
    requires NUL in s
    ensures n < |s| && s[n] == NUL && NUL !in s[..n]
  {
    if s[0] == NUL then 0 else 1 + StrLen(s[1..])
  }

  /** A buffer that held `orig` and now begins with `out` instead. */
  ghost predicate Wrote(now: seq<Byte>, orig: seq<Byte>, out: seq<Byte>) {
    |out| <= |orig| && now == out + orig[|out|..]
  }
}
