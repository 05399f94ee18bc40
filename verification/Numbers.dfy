/** Digit fields inside a text buffer: classes `Number` and `ZNumber` of corelib/numbers.cpp. */
module Numbers {
  import opened Bytes

  function Pow10(n: nat): (p: nat)
    ensures p >= 1
  {
    if n == 0 then 1 else 10 * Pow10(n - 1)
  }

  /** The constructor clamps the field width. */
  function Width(width: nat): nat { if width > 10 then 10 else if width < 1 then 1 else width }

  // ---------------------------------------------------------------- what a field says

  /** `ret` extended by the digits `s` begins with. */
  function Leading(s: seq<Byte>, ret: int): int {
    if s == [] || !IsDigit(s[0]) then ret else Leading(s[1..], ret * 10 + (s[0] - ZERO))
  }

  function Value(s: seq<Byte>): int {
    if s == [] then 0
    else if s[0] == MINUS then -Leading(s[1..], 0)
    else if s[0] == PLUS then Leading(s[1..], 0)
    else Leading(s, 0)
  }

  /** `n` bytes for `v`, most significant first; a first quotient above nine is not a digit. */
  function Digits(v: nat, n: nat): (s: seq<Byte>)
    ensures |s| == n
  {
    if n == 0 then [] else
      Divide(v, Pow10(n - 1));
      [(ZERO + v / Pow10(n - 1)) % 256] + Digits(v % Pow10(n - 1), n - 1)
  }

  function Field(value: int, n: nat): (s: seq<Byte>)
    requires value >= 0 || n >= 1
    ensures |s| == n
  {
    if value < 0 then [MINUS] + Digits(-value, n - 1) else Digits(value, n)
  }

  // ---------------------------------------------------------------- the field in the buffer

  class Number {
    const buffer: array<Byte>
    const at: nat
    const size: nat

    ghost predicate Inside() { at + size <= buffer.Length && 1 <= size <= 10 }
    ghost function Text(): seq<Byte>
      requires Inside()
      reads buffer
    {
      buffer[at..at + size]
    }

    constructor (buf: array<Byte>, start: nat, width: nat)
      requires start + Width(width) <= buf.Length
      ensures buffer == buf && at == start && size == Width(width) && Inside()
    {
      buffer, at, size := buf, start, Width(width);
    }

    /** `Number::get`. */
    method Get() returns (ret: int)
      requires Inside()
      ensures ret == Value(Text())
    {
      var count, sign, bp := size, false, at;
      ret := 0;
      if buffer[bp] == MINUS {
        count, bp, sign := count - 1, bp + 1, true;
      } else if buffer[bp] == PLUS {
        count, bp := count - 1, bp + 1;
      }
      ghost var digits := buffer[bp..at + size];
      while count > 0 && IsDigit(buffer[bp])
        invariant at <= bp && bp + count == at + size
        invariant Leading(buffer[bp..at + size], ret) == Leading(digits, 0)
      {
        assert buffer[bp..at + size][1..] == buffer[bp + 1..at + size];
        ret := ret * 10 + (buffer[bp] - ZERO);
        count, bp := count - 1, bp + 1;
      }
      assert ret == Leading(digits, 0);
      assert sign ==> digits == Text()[1..];
      if sign { ret := -ret; }
    }

    /** `ZNumber::set`: the value with leading zeros over the whole field. */
    method SetZeroed(value: int)
      requires Inside() && (value >= 0 || size >= 2)
      modifies buffer
      ensures Text() == Field(value, size)
      ensures forall k :: 0 <= k < at || at + size <= k < buffer.Length ==> buffer[k] == old(buffer[k])
    {
      var v, count, bp := value, size, at;
      if v < 0 {
        buffer[bp] := MINUS;
        v, count, bp := -v, count - 1, bp + 1;
      }
      PutDigits(buffer, bp, v, count);
      SignThenDigits(buffer[..], at, bp, bp + count, value, size);
      assert buffer[..][at..at + size] == buffer[at..at + size];
    }
  }

  lemma SignThenDigits(s: seq<Byte>, i: nat, j: nat, k: nat, value: int, size: nat)
    requires i <= j <= k <= |s| && k == i + size && (value >= 0 || size >= 1)
    requires j == (if value < 0 then i + 1 else i) && (value < 0 ==> s[i] == MINUS)
    requires s[j..k] == Digits(if value < 0 then -value else value, k - j)
    ensures s[i..k] == Field(value, size)
  {
    if value < 0 {
      TwoSlices(s, i, j, k);
      assert s[i..j] == [MINUS];
    } else {
      assert i == j;
    }
  }

  lemma TwoSlices(s: seq<Byte>, i: nat, j: nat, k: nat)
    requires i <= j <= k <= |s|
    ensures s[i..k] == s[i..j] + s[j..k]
  {
  }

  /** The two loops of `ZNumber::set`: find the power of ten of the first digit, then divide down. */
  method PutDigits(buffer: array<Byte>, start: nat, value: nat, n: nat)
    requires start + n <= buffer.Length && n >= 1
    modifies buffer
    ensures buffer[start..start + n] == Digits(value, n)
    ensures forall k :: 0 <= k < start || start + n <= k < buffer.Length ==> buffer[k] == old(buffer[k])
  {
    var max := FirstPower(n);
    var v, count, bp := value, n, start;
    ghost var all := Digits(value, n);
    assert buffer[start..bp] + Digits(v, count) == all;
    while max > 0
      invariant count >= 0 && bp + count == start + n && start <= bp
      invariant max == if count == 0 then 0 else Pow10(count - 1)
      invariant buffer[start..bp] + Digits(v, count) == all
      invariant forall k :: 0 <= k < start || start + n <= k < buffer.Length ==> buffer[k] == old(buffer[k])
      decreases count
    {
      v := PutDigit(buffer, start, bp, v, max, count, all);
      count, bp, max := count - 1, bp + 1, max / 10;
    }
  }

  /** One digit, and what remains of the value. */
  method PutDigit(buffer: array<Byte>, ghost start: nat, bp: nat, v: nat, max: nat,
      ghost count: nat, ghost all: seq<Byte>)
      returns (v': nat)
    requires count >= 1 && max == Pow10(count - 1) && start <= bp < buffer.Length
    requires buffer[start..bp] + Digits(v, count) == all
    modifies buffer
    ensures buffer[start..bp + 1] + Digits(v', count - 1) == all
    ensures forall k :: 0 <= k < buffer.Length && k != bp ==> buffer[k] == old(buffer[k])
  {
    ghost var done := buffer[start..bp];
    DigitsStep(v, count, done);
    v' := v - (v / max) * max;
    buffer[bp] := (ZERO + v / max) % 256;
    assert buffer[start..bp + 1] == done + [(ZERO + v / max) % 256];
  }

  method FirstPower(n: nat) returns (max: nat)
    requires n >= 1
    ensures max == Pow10(n - 1)
  {
    max := 1;
    var exp := n - 1;
    while exp > 0
      invariant 0 <= exp < n && max * Pow10(exp) == Pow10(n - 1)
    {
      Shift(max, Pow10(exp - 1));
      max, exp := max * 10, exp - 1;
    }
  }

  lemma Shift(max: int, p: int)
    ensures max * (10 * p) == (max * 10) * p
  {
  }

  lemma Divide(v: nat, p: nat)
    requires p > 0
    ensures v / p >= 0 && v - v / p * p == v % p >= 0
  {
    var q := v / p;
    assert v == q * p + v % p;
    NotNegative(q, p, v % p);
  }

  lemma NotNegative(q: int, p: nat, r: nat)
    requires r < p && q * p + r >= 0
    ensures q >= 0
  {
    assert q <= -1 ==> q * p + p <= 0;
  }

  lemma DigitsStep(v: nat, n: nat, done: seq<Byte>)
    requires n > 0
    ensures v / Pow10(n - 1) >= 0 && v - v / Pow10(n - 1) * Pow10(n - 1) == v % Pow10(n - 1)
    ensures done + Digits(v, n) == done + [(ZERO + v / Pow10(n - 1)) % 256] + Digits(v % Pow10(n - 1), n - 1)
  {
    Divide(v, Pow10(n - 1));
  }

  // ---------------------------------------------------------------- a field says what was put there

  /** The leading quotient of a value below `10 * p` is a digit, and folds back into the total. */
  lemma LeadDigit(v: nat, p: nat, ret: nat)
    requires p > 0 && v < 10 * p
    ensures 0 <= v / p < 10 && (ret * 10 + v / p) * p + v % p == ret * (10 * p) + v
  {
    var q, r := v / p, v % p;
    assert v == p * q + r;
    if q >= 10 { Scale(10, q, p); }
  }

  lemma Scale(a: nat, b: nat, p: nat)
    requires a <= b
    ensures a * p <= b * p
  {
  }

  lemma {:induction false} LeadingDigits(v: nat, n: nat, ret: nat)
    requires v < Pow10(n)
    ensures Leading(Digits(v, n), ret) == ret * Pow10(n) + v
    ensures n > 0 ==> IsDigit(Digits(v, n)[0])
  {
    if n > 0 {
      var p := Pow10(n - 1);
      var q := v / p;
      LeadDigit(v, p, ret);
      LeadingDigits(v % p, n - 1, ret * 10 + q);
      assert Digits(v, n)[1..] == Digits(v % p, n - 1);
    }
  }

  lemma DigitRoom(ret: nat, d: nat, p: nat, total: int)
    requires d <= 9 && total < (ret * 10 + d + 1) * p
    ensures total < (ret + 1) * (10 * p)
  {
    Scale(ret * 10 + d + 1, (ret + 1) * 10, p);
  }

  lemma {:induction false} LeadingBound(s: seq<Byte>, ret: nat)
    ensures 0 <= Leading(s, ret) < (ret + 1) * Pow10(|s|)
  {
    if s == [] || !IsDigit(s[0]) {
      Scale(1, Pow10(|s|), ret + 1);
    } else {
      var p := Pow10(|s| - 1);
      var d := s[0] - ZERO;
      LeadingBound(s[1..], ret * 10 + d);
      DigitRoom(ret, d, p, Leading(s[1..], ret * 10 + d));
    }
  }

  /** What `ZNumber::set` wrote, `Number::get` reads back exactly when the value has room. */
  lemma ReadsBack(value: int, n: nat)
    requires n >= 1 && (value >= 0 || n >= 2)
    ensures Value(Field(value, n)) == value <==>
      if value < 0 then -value < Pow10(n - 1) else value < Pow10(n)
  {
    var f := Field(value, n);
    LeadingBound(f, 0);
    LeadingBound(f[1..], 0);
    if value < 0 {
      assert f[1..] == Digits(-value, n - 1);
      if -value < Pow10(n - 1) { LeadingDigits(-value, n - 1, 0); }
    } else if value < Pow10(n) {
      LeadingDigits(value, n, 0);
    }
  }

  lemma {:induction false} LeadingOn(a: seq<Byte>, b: seq<Byte>, ret: int)
    requires forall i | 0 <= i < |a| :: IsDigit(a[i])
    ensures Leading(a + b, ret) == Leading(b, Leading(a, ret))
  {
    if a == [] {
      assert a + b == b;
    } else {
      assert (a + b)[0] == a[0] && (a + b)[1..] == a[1..] + b;
      LeadingOn(a[1..], b, ret * 10 + (a[0] - ZERO));
    }
  }

  /** A field is worth what its digits are worth, negated after a minus sign; a plus sign, and what follows the
      digits, does not matter. */
  lemma ValueExactly(digits: seq<Byte>, rest: seq<Byte>)
    requires digits != [] && (forall i | 0 <= i < |digits| :: IsDigit(digits[i])) && (rest != [] ==> !IsDigit(rest[0]))
    ensures Value(digits + rest) == Value(digits) == Leading(digits, 0)
    ensures Value([PLUS] + (digits + rest)) == Value(digits) && Value([MINUS] + (digits + rest)) == -Value(digits)
    ensures rest != [] && rest[0] != PLUS && rest[0] != MINUS ==> Value(rest) == 0
  {
    LeadingOn(digits, rest, 0);
    assert Leading(rest, Leading(digits, 0)) == Leading(digits, 0);
    assert (digits + rest)[0] == digits[0];
    assert ([PLUS] + (digits + rest))[1..] == digits + rest && ([MINUS] + (digits + rest))[1..] == digits + rest;
  }
}
