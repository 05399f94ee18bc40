/** The checksums `crc24` (section 6.1 of RFC 4880) and `crc16` of corelib/string.cpp. Both are one shift
    register: its first bit is the one about to leave, and `poly` is added when that bit was set. */
module Crc {
  import opened Bytes
  import opened BitStrings

  function Shift(r: seq<Bit>, poly: seq<Bit>): (s: seq<Bit>)
    requires |r| == |poly| > 0
    ensures |s| == |r|
  {
    if r[0] == 1 then Xor(r[1..] + [0], poly) else r[1..] + [0]
  }

  function Shifts(r: seq<Bit>, poly: seq<Bit>, n: nat): (s: seq<Bit>)
    requires |r| == |poly| > 0
    ensures |s| == |r|
    decreases n
  {
    if n == 0 then r else Shifts(Shift(r, poly), poly, n - 1)
  }

  /** A byte is added to the first eight bits, which then leave. */
  function Step(r: seq<Bit>, poly: seq<Bit>, o: Octet): (s: seq<Bit>)
    requires |r| == |poly| >= 8
    ensures |s| == |r|
  {
    Shifts(Xor(r, o + Zeros(|r| - 8)), poly, 8)
  }

  function From(r: seq<Bit>, poly: seq<Bit>, m: seq<Octet>): (s: seq<Bit>)
    requires |r| == |poly| >= 8
    ensures |s| == |r|
    decreases |m|
  {
    if m == [] then r else From(Step(r, poly, m[0]), poly, m[1..])
  }

  // ---------------------------------------------------------------- the register is linear

  lemma ShiftLinear(a: seq<Bit>, b: seq<Bit>, poly: seq<Bit>)
    requires |a| == |b| == |poly| > 0
    ensures Shift(Xor(a, b), poly) == Xor(Shift(a, poly), Shift(b, poly))
  {
  }

  lemma {:induction false} ShiftsLinear(a: seq<Bit>, b: seq<Bit>, poly: seq<Bit>, n: nat)
    requires |a| == |b| == |poly| > 0
    ensures Shifts(Xor(a, b), poly, n) == Xor(Shifts(a, poly, n), Shifts(b, poly, n))
    decreases n
  {
    if n > 0 {
      ShiftLinear(a, b, poly);
      ShiftsLinear(Shift(a, poly), Shift(b, poly), poly, n - 1);
    }
  }

  lemma {:induction false} ShiftsCompose(r: seq<Bit>, poly: seq<Bit>, n: nat, m: nat)
    requires |r| == |poly| > 0
    ensures Shifts(Shifts(r, poly, n), poly, m) == Shifts(r, poly, n + m)
    decreases n
  {
    if n > 0 { ShiftsCompose(Shift(r, poly), poly, n - 1, m); }
  }

  /** While zeros leave, nothing is added. */
  lemma {:induction false} ShiftsFree(z: nat, t: seq<Bit>, poly: seq<Bit>)
    requires z + |t| == |poly| > 0
    ensures Shifts(Zeros(z) + t, poly, z) == t + Zeros(z)
    decreases z
  {
    if z == 0 {
      assert Zeros(0) + t == t == t + Zeros(0);
    } else {
      var r := Zeros(z) + t;
      assert r[0] == 0 && r[1..] + [0] == Zeros(z - 1) + (t + [0]);
      ShiftsFree(z - 1, t + [0], poly);
      assert t + [0] + Zeros(z - 1) == t + Zeros(z);
    }
  }

  lemma XorCancels(a: seq<Bit>, b: seq<Bit>, c: seq<Bit>)
    requires |a| == |b| == |c| && Xor(a, c) == Xor(b, c)
    ensures a == b
  {
    forall i | 0 <= i < |a| ensures a[i] == b[i] { assert Xor(a, c)[i] == Xor(b, c)[i]; }
  }

  lemma ShiftInjective(a: seq<Bit>, b: seq<Bit>, poly: seq<Bit>)
    requires |a| == |b| == |poly| > 0 && poly[|poly| - 1] == 1
    requires Shift(a, poly) == Shift(b, poly)
    ensures a == b
  {
    var x, y, n := a[1..] + [0], b[1..] + [0], |a|;
    assert Shift(a, poly)[n - 1] == a[0] && Shift(b, poly)[n - 1] == b[0];
    if a[0] == 1 { XorCancels(x, y, poly); }
    assert a == [a[0]] + x[..n - 1] && b == [b[0]] + y[..n - 1];
  }

  lemma {:induction false} ShiftsInjective(a: seq<Bit>, b: seq<Bit>, poly: seq<Bit>, n: nat)
    requires |a| == |b| == |poly| > 0 && poly[|poly| - 1] == 1
    requires Shifts(a, poly, n) == Shifts(b, poly, n)
    ensures a == b
    decreases n
  {
    if n > 0 {
      ShiftsInjective(Shift(a, poly), Shift(b, poly), poly, n - 1);
      ShiftInjective(a, b, poly);
    }
  }

  // ---------------------------------------------------------------- whole messages

  lemma {:induction false} FromConcat(r: seq<Bit>, poly: seq<Bit>, m: seq<Octet>, n: seq<Octet>)
    requires |r| == |poly| >= 8
    ensures From(r, poly, m + n) == From(From(r, poly, m), poly, n)
    decreases |m|
  {
    if m == [] {
      assert m + n == n;
    } else {
      assert (m + n)[0] == m[0] && (m + n)[1..] == m[1..] + n;
      FromConcat(Step(r, poly, m[0]), poly, m[1..], n);
    }
  }

  lemma FlatCons(u: seq<Octet>, z: nat)
    requires u != []
    ensures u[0] + (Flat(u[1..]) + Zeros(z)) == Flat(u) + Zeros(z)
    ensures Flat(u[1..]) + Zeros(z) + Zeros(8) == Flat(u[1..]) + Zeros(z + 8)
  {
    assert Zeros(z) + Zeros(8) == Zeros(z + 8);
  }

  /** Fed its own first byte, a register moves up by a byte. */
  lemma OwnByte(o: Octet, t: seq<Bit>, poly: seq<Bit>)
    requires 8 + |t| == |poly|
    ensures Step(o + t, poly, o) == t + Zeros(8)
  {
    assert Xor(o + t, o + Zeros(|t|)) == Zeros(8) + t;
    ShiftsFree(8, t, poly);
  }

  /** A register that is fed its own leading bytes runs empty. */
  lemma {:induction false} OwnBytes(u: seq<Octet>, z: nat, poly: seq<Bit>)
    requires 8 * |u| + z == |poly| >= 8
    ensures From(Flat(u) + Zeros(z), poly, u) == Zeros(|poly|)
    decreases |u|
  {
    if u == [] {
      assert Flat(u) + Zeros(z) == Zeros(|poly|);
    } else {
      FlatCons(u, z);
      OwnByte(u[0], Flat(u[1..]) + Zeros(z), poly);
      OwnBytes(u[1..], z + 8, poly);
    }
  }

  lemma AddTogether(r: seq<Bit>, o: Octet, t: seq<Bit>)
    requires |r| == 8 + |t|
    ensures Xor(Xor(r, o + Zeros(|r| - 8)), Zeros(8) + t) == Xor(r, o + t)
  {
  }

  /** A byte and what follows it, added before the byte's bits leave. */
  lemma WindowStep(r: seq<Bit>, poly: seq<Bit>, o: Octet, t: seq<Bit>, n: nat)
    requires |r| == |poly| == 8 + |t|
    ensures Shifts(Xor(Step(r, poly, o), t + Zeros(8)), poly, n) == Shifts(Xor(r, o + t), poly, 8 + n)
  {
    var x := Xor(r, o + Zeros(|r| - 8));
    ShiftsFree(8, t, poly);
    ShiftsLinear(x, Zeros(8) + t, poly, 8);
    AddTogether(r, o, t);
    ShiftsCompose(Xor(r, o + t), poly, 8, n);
  }

  /** A few bytes, no more than fill the register, act on it as if added all at once. */
  lemma {:induction false} Window(r: seq<Bit>, poly: seq<Bit>, u: seq<Octet>, z: nat)
    requires |r| == |poly| >= 8 && 8 * |u| + z == |r|
    ensures From(r, poly, u) == Shifts(Xor(r, Flat(u) + Zeros(z)), poly, 8 * |u|)
    decreases |u|
  {
    if u == [] {
      assert Xor(r, Flat(u) + Zeros(z)) == r;
    } else {
      Window(Step(r, poly, u[0]), poly, u[1..], z + 8);
      FlatCons(u, z);
      WindowStep(r, poly, u[0], Flat(u[1..]) + Zeros(z), 8 * |u[1..]|);
    }
  }

  lemma {:induction false} FromInjective(a: seq<Bit>, b: seq<Bit>, poly: seq<Bit>, m: seq<Octet>)
    requires |a| == |b| == |poly| >= 8 && poly[|poly| - 1] == 1
    requires From(a, poly, m) == From(b, poly, m)
    ensures a == b
    decreases |m|
  {
    if m != [] {
      FromInjective(Step(a, poly, m[0]), Step(b, poly, m[0]), poly, m[1..]);
      var o := m[0] + Zeros(|a| - 8);
      ShiftsInjective(Xor(a, o), Xor(b, o), poly, 8);
      XorCancels(a, b, o);
    }
  }

  /** Any change confined to as many consecutive bytes as the register holds changes the checksum. */
  lemma BurstDetected(r: seq<Bit>, poly: seq<Bit>, p: seq<Octet>, u: seq<Octet>, v: seq<Octet>, s: seq<Octet>)
    requires |r| == |poly| >= 8 && poly[|poly| - 1] == 1 && |u| == |v| && 8 * |u| <= |r|
    ensures From(r, poly, p + u + s) == From(r, poly, p + v + s) <==> u == v
  {
    var q := From(r, poly, p);
    FromConcat(r, poly, p + u, s);
    FromConcat(r, poly, p, u);
    FromConcat(r, poly, p + v, s);
    FromConcat(r, poly, p, v);
    if From(r, poly, p + u + s) == From(r, poly, p + v + s) {
      FromInjective(From(q, poly, u), From(q, poly, v), poly, s);
      WindowInjective(q, poly, u, v);
    }
  }

  lemma WindowInjective(q: seq<Bit>, poly: seq<Bit>, u: seq<Octet>, v: seq<Octet>)
    requires |q| == |poly| >= 8 && poly[|poly| - 1] == 1 && |u| == |v| && 8 * |u| <= |q|
    requires From(q, poly, u) == From(q, poly, v)
    ensures u == v
  {
    var z := |q| - 8 * |u|;
    var x, y := Flat(u) + Zeros(z), Flat(v) + Zeros(z);
    Window(q, poly, u, z);
    Window(q, poly, v, z);
    ShiftsInjective(Xor(q, x), Xor(q, y), poly, 8 * |u|);
    assert Xor(q, x) == Xor(x, q) && Xor(q, y) == Xor(y, q);
    XorCancels(x, y, q);
    assert Flat(u) == x[..8 * |u|] && Flat(v) == y[..8 * |u|];
    FlatInjective(u, v);
  }

  function XorAll(a: seq<Octet>, b: seq<Octet>): (c: seq<Octet>)
    requires |a| == |b|
    ensures |c| == |a|
  {
    if a == [] then [] else [Xor(a[0], b[0])] + XorAll(a[1..], b[1..])
  }

  lemma {:induction false} FromLinear(r: seq<Bit>, s: seq<Bit>, poly: seq<Bit>, a: seq<Octet>, b: seq<Octet>)
    requires |r| == |s| == |poly| >= 8 && |a| == |b|
    ensures From(Xor(r, s), poly, XorAll(a, b)) == Xor(From(r, poly, a), From(s, poly, b))
    decreases |a|
  {
    if a != [] {
      var z := Zeros(|r| - 8);
      var x, y := Xor(r, a[0] + z), Xor(s, b[0] + z);
      assert Xor(Xor(r, s), Xor(a[0], b[0]) + z) == Xor(x, y);
      ShiftsLinear(x, y, poly, 8);
      assert XorAll(a, b)[1..] == XorAll(a[1..], b[1..]);
      FromLinear(Step(r, poly, a[0]), Step(s, poly, b[0]), poly, a[1..], b[1..]);
    }
  }

  /** The checksum of three messages added up is their checksums added up. */
  lemma Affine(r: seq<Bit>, poly: seq<Bit>, a: seq<Octet>, b: seq<Octet>, c: seq<Octet>)
    requires |r| == |poly| >= 8 && |a| == |b| == |c|
    ensures From(r, poly, XorAll(XorAll(a, b), c)) ==
      Xor(Xor(From(r, poly, a), From(r, poly, b)), From(r, poly, c))
  {
    FromLinear(r, r, poly, a, b);
    FromLinear(Xor(r, r), r, poly, XorAll(a, b), c);
    assert Xor(Xor(r, r), r) == r;
  }

  // ---------------------------------------------------------------- checksums of bytes

  /** The bits of a string in reverse: words and bytes with the least significant bit first. */
  function Rev(s: seq<Bit>): (t: seq<Bit>)
    ensures |t| == |s| && forall i :: 0 <= i < |s| ==> t[i] == s[|s| - 1 - i]
  {
    seq(|s|, i requires 0 <= i < |s| => s[|s| - 1 - i])
  }

  function OctetOf(b: Byte, low: bool): Octet { if low then Rev(Bits(b, 8)) else Bits(b, 8) }

  function ByteOf(o: Octet, low: bool): Byte {
    assert Pow2(8) == 256;
    FromBits(if low then Rev(o) else o)
  }

  lemma OctetBack(o: Octet, low: bool)
    ensures OctetOf(ByteOf(o, low), low) == o
  {
    BitsBack(if low then Rev(o) else o);
  }

  lemma ByteBack(b: Byte, low: bool)
    ensures ByteOf(OctetOf(b, low), low) == b
  {
    assert Pow2(8) == 256 && (low ==> Rev(Rev(Bits(b, 8))) == Bits(b, 8));
    FromBitsBack(b, 8);
  }

  function Octets(m: seq<Byte>, low: bool): (u: seq<Octet>)
    ensures |u| == |m| && forall i :: 0 <= i < |u| ==> u[i] == OctetOf(m[i], low)
  {
    seq(|m|, i requires 0 <= i < |m| => OctetOf(m[i], low))
  }

  /** A checksum: how the register starts, what is added, and whether bytes enter low bit first. */
  datatype Code = Code(init: seq<Bit>, poly: seq<Bit>, low: bool)

  ghost predicate Proper(c: Code) {
    |c.init| == |c.poly| >= 8 && |c.poly| % 8 == 0 && c.poly[|c.poly| - 1] == 1
  }

  ghost function Checksum(c: Code, m: seq<Byte>): (r: seq<Bit>)
    requires Proper(c)
    ensures |r| == |c.poly|
  {
    From(c.init, c.poly, Octets(m, c.low))
  }

  /** The bytes of a register, the one about to leave first. */
  function BytesOf(s: seq<Bit>, low: bool): (b: seq<Byte>)
    requires |s| % 8 == 0
  {
    if s == [] then [] else [ByteOf(s[..8], low)] + BytesOf(s[8..], low)
  }

  lemma {:induction false} BytesOfFlat(s: seq<Bit>, low: bool)
    requires |s| % 8 == 0
    ensures Flat(Octets(BytesOf(s, low), low)) == s
  {
    if s != [] {
      BytesOfFlat(s[8..], low);
      OctetBack(s[..8], low);
      var u := Octets(BytesOf(s, low), low);
      assert u[0] == s[..8] && u[1..] == Octets(BytesOf(s[8..], low), low);
    }
  }

  /** A message followed by its own checksum has checksum 0. */
  lemma SelfCheck(c: Code, m: seq<Byte>)
    requires Proper(c)
    ensures Checksum(c, m + BytesOf(Checksum(c, m), c.low)) == Zeros(|c.poly|)
  {
    var s := Checksum(c, m);
    var b := BytesOf(s, c.low);
    OctetsConcat(m, b, c.low);
    FromConcat(c.init, c.poly, Octets(m, c.low), Octets(b, c.low));
    OwnChecksum(s, c.poly, c.low);
  }

  lemma OwnChecksum(s: seq<Bit>, poly: seq<Bit>, low: bool)
    requires |s| == |poly| >= 8 && |s| % 8 == 0
    ensures From(s, poly, Octets(BytesOf(s, low), low)) == Zeros(|poly|)
  {
    var u := Octets(BytesOf(s, low), low);
    BytesOfFlat(s, low);
    assert s == Flat(u) + Zeros(0);
    OwnBytes(u, 0, poly);
  }

  lemma OctetsConcat(m: seq<Byte>, n: seq<Byte>, low: bool)
    ensures Octets(m + n, low) == Octets(m, low) + Octets(n, low)
  {
  }

  /** A change confined to as many consecutive bytes as the checksum has always shows. */
  lemma Detects(c: Code, p: seq<Byte>, u: seq<Byte>, v: seq<Byte>, s: seq<Byte>)
    requires Proper(c) && |u| == |v| && 8 * |u| <= |c.poly|
    ensures Checksum(c, p + u + s) == Checksum(c, p + v + s) <==> u == v
  {
    OctetsConcat(p + u, s, c.low);
    OctetsConcat(p, u, c.low);
    OctetsConcat(p + v, s, c.low);
    OctetsConcat(p, v, c.low);
    BurstDetected(c.init, c.poly, Octets(p, c.low), Octets(u, c.low), Octets(v, c.low), Octets(s, c.low));
    if Octets(u, c.low) == Octets(v, c.low) { OctetsInjective(u, v, c.low); }
  }

  lemma OctetsInjective(u: seq<Byte>, v: seq<Byte>, low: bool)
    requires Octets(u, low) == Octets(v, low)
    ensures u == v
  {
    assert |u| == |Octets(u, low)| == |Octets(v, low)| == |v|;
    forall i | 0 <= i < |u| ensures u[i] == v[i] {
      assert Octets(u, low)[i] == Octets(v, low)[i];
      ByteBack(u[i], low);
      ByteBack(v[i], low);
    }
  }

  function XorByte(a: Byte, b: Byte): Byte { ByteOf(Xor(Bits(a, 8), Bits(b, 8)), false) }

  function XorBytes(a: seq<Byte>, b: seq<Byte>): (c: seq<Byte>)
    requires |a| == |b|
    ensures |c| == |a|
  {
    if a == [] then [] else [XorByte(a[0], b[0])] + XorBytes(a[1..], b[1..])
  }

  lemma OctetXor(a: Byte, b: Byte, low: bool)
    ensures OctetOf(XorByte(a, b), low) == Xor(OctetOf(a, low), OctetOf(b, low))
  {
    var x: Octet, y: Octet := Bits(a, 8), Bits(b, 8);
    OctetBack(Xor(x, y), false);
    RevXor(x, y);
  }

  lemma RevXor(x: seq<Bit>, y: seq<Bit>)
    requires |x| == |y|
    ensures Rev(Xor(x, y)) == Xor(Rev(x), Rev(y))
  {
  }

  lemma {:induction false} OctetsXor(a: seq<Byte>, b: seq<Byte>, low: bool)
    requires |a| == |b|
    ensures Octets(XorBytes(a, b), low) == XorAll(Octets(a, low), Octets(b, low))
  {
    if a != [] {
      OctetXor(a[0], b[0], low);
      OctetsXor(a[1..], b[1..], low);
      assert Octets(a, low)[1..] == Octets(a[1..], low) && Octets(b, low)[1..] == Octets(b[1..], low);
    }
  }

  /** The checksum of three messages added bit by bit is the sum of their checksums. */
  lemma Adds(c: Code, a: seq<Byte>, b: seq<Byte>, d: seq<Byte>)
    requires Proper(c) && |a| == |b| == |d|
    ensures Checksum(c, XorBytes(XorBytes(a, b), d)) == Xor(Xor(Checksum(c, a), Checksum(c, b)), Checksum(c, d))
  {
    OctetsXor(a, b, c.low);
    OctetsXor(XorBytes(a, b), d, c.low);
    Affine(c.init, c.poly, Octets(a, c.low), Octets(b, c.low), Octets(d, c.low));
  }

  // ---------------------------------------------------------------- remainders

  /** The product of two polynomials with coefficients 0 and 1, highest power first. */
  ghost function Times(q: seq<Bit>, g: seq<Bit>): (p: seq<Bit>)
    requires g != []
    ensures |p| == |q| + |g| - 1
  {
    if q == [] then Zeros(|g| - 1)
    else Xor((if q[0] == 1 then g else Zeros(|g|)) + Zeros(|q| - 1), [0] + Times(q[1..], g))
  }

  lemma {:induction false} TimesConcat(a: seq<Bit>, b: seq<Bit>, g: seq<Bit>)
    requires g != []
    ensures Times(a + b, g) == Xor(Times(a, g) + Zeros(|b|), Zeros(|a|) + Times(b, g))
  {
    if a == [] {
      assert a + b == b && Zeros(|g| - 1) + Zeros(|b|) == Zeros(|b| + |g| - 1);
      NothingAdded(Times(b, g));
    } else {
      assert (a + b)[0] == a[0] && (a + b)[1..] == a[1..] + b;
      TimesConcat(a[1..], b, g);
      SumShifted(if a[0] == 1 then g else Zeros(|g|), Times(a[1..], g), Times(b, g), |a|, |b|);
    }
  }

  lemma NothingAdded(x: seq<Bit>)
    ensures Xor(Zeros(|x|), Zeros(0) + x) == x
  {
  }

  lemma SumShifted(g: seq<Bit>, x: seq<Bit>, y: seq<Bit>, n: nat, k: nat)
    requires n > 0 && g != [] && |x| == n + |g| - 2 && |y| == k + |g| - 1
    ensures Xor(g + Zeros(n + k - 1), [0] + Xor(x + Zeros(k), Zeros(n - 1) + y)) ==
      Xor(Xor(g + Zeros(n - 1), [0] + x) + Zeros(k), Zeros(n) + y)
  {
  }

  lemma {:induction false} TimesLinear(a: seq<Bit>, b: seq<Bit>, g: seq<Bit>)
    requires g != [] && |a| == |b|
    ensures Times(Xor(a, b), g) == Xor(Times(a, g), Times(b, g))
  {
    if a != [] {
      assert Xor(a, b)[1..] == Xor(a[1..], b[1..]);
      TimesLinear(a[1..], b[1..], g);
      SumOfSums(if a[0] == 1 then g else Zeros(|g|), if b[0] == 1 then g else Zeros(|g|),
        if Xor(a, b)[0] == 1 then g else Zeros(|g|), Times(a[1..], g), Times(b[1..], g), |a| - 1);
    }
  }

  lemma SumOfSums(g: seq<Bit>, h: seq<Bit>, k: seq<Bit>, x: seq<Bit>, y: seq<Bit>, n: nat)
    requires |g| == |h| == |k| && |x| == |y| == |g| + n - 1 && k == Xor(g, h)
    ensures Xor(k + Zeros(n), [0] + Xor(x, y)) == Xor(Xor(g + Zeros(n), [0] + x), Xor(h + Zeros(n), [0] + y))
  {
  }

  /** Only nothing times `g` leaves nothing above the low places. */
  lemma {:induction false} NoMultipleBelow(q: seq<Bit>, g: seq<Bit>)
    requires g != [] && g[0] == 1 && forall i | 0 <= i < |q| :: Times(q, g)[i] == 0
    ensures Times(q, g) == Zeros(|Times(q, g)|)
  {
    if q != [] {
      assert Times(q, g)[0] == q[0];
      forall i | 0 <= i < |q| - 1 ensures Times(q[1..], g)[i] == 0 { assert Times(q, g)[i + 1] == 0; }
      NoMultipleBelow(q[1..], g);
    }
  }

  /** One shift takes out the generator, if the bit that leaves is set. */
  lemma ShiftDivides(r: seq<Bit>, poly: seq<Bit>)
    requires |r| == |poly| > 0
    ensures r + [0] == Xor(if r[0] == 1 then [1] + poly else Zeros(|poly| + 1), [0] + Shift(r, poly))
  {
    var up := r[1..] + [0];
    if r[0] == 1 {
      assert Xor([1] + poly, [0] + Xor(up, poly)) == [1] + up;
    } else {
      assert Xor(Zeros(|poly| + 1), [0] + up) == [0] + up;
    }
    assert r + [0] == [r[0]] + up;
  }

  lemma {:induction false} ShiftsDivide(r: seq<Bit>, poly: seq<Bit>, n: nat) returns (q: seq<Bit>)
    requires |r| == |poly| > 0
    ensures |q| == n && r + Zeros(n) == Xor(Times(q, [1] + poly), Zeros(n) + Shifts(r, poly, n))
    decreases n
  {
    if n == 0 {
      q := [];
    } else {
      var t := ShiftsDivide(Shift(r, poly), poly, n - 1);
      q := [r[0]] + t;
      ShiftDivides(r, poly);
      assert q[1..] == t;
      OneMorePlace(r, if r[0] == 1 then [1] + poly else Zeros(|poly| + 1), Shift(r, poly),
        Times(t, [1] + poly), Shifts(r, poly, n), n);
    }
  }

  lemma OneMorePlace(r: seq<Bit>, g: seq<Bit>, s: seq<Bit>, x: seq<Bit>, f: seq<Bit>, n: nat)
    requires n > 0 && |r| == |s| == |f| && |g| == |r| + 1 && |x| == n - 1 + |r|
    requires r + [0] == Xor(g, [0] + s) && s + Zeros(n - 1) == Xor(x, Zeros(n - 1) + f)
    ensures r + Zeros(n) == Xor(Xor(g + Zeros(n - 1), [0] + x), Zeros(n) + f)
  {
    var y, z := r + [0], s + Zeros(n - 1);
    var a, b := r + Zeros(n), Xor(Xor(g + Zeros(n - 1), [0] + x), Zeros(n) + f);
    forall i | 0 <= i < |a| ensures a[i] == b[i] {
      if i > 0 { assert z[i - 1] == Xor(x, Zeros(n - 1) + f)[i - 1]; }
      if i <= |r| { assert y[i] == Xor(g, [0] + s)[i]; }
    }
  }

  /** What a register takes in, followed by zeros, is a multiple of the generator and what it then holds. */
  lemma {:induction false} FromDivides(r: seq<Bit>, poly: seq<Bit>, m: seq<Octet>) returns (q: seq<Bit>)
    requires |r| == |poly| >= 8
    ensures |q| == 8 * |m|
    ensures Xor(r + Zeros(8 * |m|), Flat(m) + Zeros(|r|)) ==
      Xor(Times(q, [1] + poly), Zeros(8 * |m|) + From(r, poly, m))
    decreases |m|
  {
    if m == [] {
      q := [];
    } else {
      var a := ShiftsDivide(Xor(r, m[0] + Zeros(|r| - 8)), poly, 8);
      var b := FromDivides(Step(r, poly, m[0]), poly, m[1..]);
      q := a + b;
      JoinQuotients(r, m[0], Flat(m[1..]), Step(r, poly, m[0]), From(r, poly, m), a, b, [1] + poly);
      assert 8 * |m| == 8 + |b| && Flat(m) == m[0] + Flat(m[1..]);
    }
  }

  lemma JoinQuotients(r: seq<Bit>, o: Octet, f: seq<Bit>, s: seq<Bit>, e: seq<Bit>,
                      a: seq<Bit>, b: seq<Bit>, g: seq<Bit>)
    requires |r| == |s| == |e| >= 8 && |g| == |r| + 1 && |a| == 8 && |f| == |b|
    requires Xor(r, o + Zeros(|r| - 8)) + Zeros(8) == Xor(Times(a, g), Zeros(8) + s)
    requires Xor(s + Zeros(|b|), f + Zeros(|r|)) == Xor(Times(b, g), Zeros(|b|) + e)
    ensures Xor(r + Zeros(8 + |b|), o + f + Zeros(|r|)) == Xor(Times(a + b, g), Zeros(8 + |b|) + e)
  {
    TimesConcat(a, b, g);
    AddParts(r, o, f, s, e, Times(a, g), Times(b, g), |b|);
  }

  lemma AddParts(r: seq<Bit>, o: Octet, f: seq<Bit>, s: seq<Bit>, e: seq<Bit>, x: seq<Bit>, y: seq<Bit>, n: nat)
    requires |r| == |s| == |e| >= 8 && |f| == n && |x| == 8 + |r| && |y| == n + |r|
    requires Xor(r, o + Zeros(|r| - 8)) + Zeros(8) == Xor(x, Zeros(8) + s)
    requires Xor(s + Zeros(n), f + Zeros(|r|)) == Xor(y, Zeros(n) + e)
    ensures Xor(r + Zeros(8 + n), o + f + Zeros(|r|)) ==
      Xor(Xor(x + Zeros(n), Zeros(8) + y), Zeros(8 + n) + e)
  {
    var z, w := Xor(r, o + Zeros(|r| - 8)) + Zeros(8), Xor(s + Zeros(n), f + Zeros(|r|));
    var a, b := Xor(r + Zeros(8 + n), o + f + Zeros(|r|)), Xor(Xor(x + Zeros(n), Zeros(8) + y), Zeros(8 + n) + e);
    forall i | 0 <= i < |a| ensures a[i] == b[i] {
      if i < |r| + 8 { assert z[i] == Xor(x, Zeros(8) + s)[i]; }
      if i >= 8 { assert w[i - 8] == Xor(y, Zeros(n) + e)[i - 8]; }
    }
  }

  /** The generator: one power more than the register holds. */
  ghost function Generator(c: Code): seq<Bit> { [1] + c.poly }

  ghost function BitsOf(c: Code, m: seq<Byte>): (s: seq<Bit>)
    ensures |s| == 8 * |m|
  {
    Flat(Octets(m, c.low))
  }

  /** The checksum is the remainder when the message, with the initial value added to its first bits and as many
      zeros after it as the checksum has bits, is divided by the generator. */
  lemma IsRemainder(c: Code, m: seq<Byte>) returns (q: seq<Bit>)
    requires Proper(c)
    ensures |q| == 8 * |m|
    ensures Xor(c.init + Zeros(8 * |m|), BitsOf(c, m) + Zeros(|c.poly|)) ==
      Xor(Times(q, Generator(c)), Zeros(8 * |m|) + Checksum(c, m))
  {
    q := FromDivides(c.init, c.poly, Octets(m, c.low));
  }

  /** Two messages of one length have the same checksum exactly when their difference, followed by zeros, is a
      multiple of the generator. */
  lemma SameExactly(c: Code, a: seq<Byte>, b: seq<Byte>)
    requires Proper(c) && |a| == |b|
    ensures Checksum(c, a) == Checksum(c, b) <==>
      exists q | |q| == 8 * |a| :: Times(q, Generator(c)) == Xor(BitsOf(c, a), BitsOf(c, b)) + Zeros(|c.poly|)
  {
    var g, n := Generator(c), 8 * |a|;
    var p := IsRemainder(c, a);
    var q := IsRemainder(c, b);
    TimesLinear(p, q, g);
    Difference(c.init, BitsOf(c, a), BitsOf(c, b), Times(p, g), Times(q, g), Checksum(c, a), Checksum(c, b), n);
    assert Checksum(c, a) == Checksum(c, b) ==>
      Times(Xor(p, q), g) == Xor(BitsOf(c, a), BitsOf(c, b)) + Zeros(|c.poly|);
    if t :| |t| == n && Times(t, g) == Xor(BitsOf(c, a), BitsOf(c, b)) + Zeros(|c.poly|) {
      TimesLinear(t, Xor(p, q), g);
      OnlyRemainder(Xor(t, Xor(p, q)), g, Times(t, g), Times(Xor(p, q), g), Checksum(c, a), Checksum(c, b), n);
    }
  }

  lemma Difference(i: seq<Bit>, a: seq<Bit>, b: seq<Bit>, x: seq<Bit>, y: seq<Bit>, r: seq<Bit>, s: seq<Bit>, n: nat)
    requires |a| == |b| == n && |i| == |r| == |s| && |x| == |y| == n + |i|
    requires Xor(i + Zeros(n), a + Zeros(|i|)) == Xor(x, Zeros(n) + r)
    requires Xor(i + Zeros(n), b + Zeros(|i|)) == Xor(y, Zeros(n) + s)
    ensures Xor(a, b) + Zeros(|i|) == Xor(Xor(x, y), Zeros(n) + Xor(r, s))
    ensures r == s ==> Xor(a, b) + Zeros(|i|) == Xor(x, y)
  {
    var d, e := Xor(a, b) + Zeros(|i|), Xor(Xor(x, y), Zeros(n) + Xor(r, s));
    forall k | 0 <= k < |d| ensures d[k] == e[k] {
      assert Xor(i + Zeros(n), a + Zeros(|i|))[k] == Xor(x, Zeros(n) + r)[k];
      assert Xor(i + Zeros(n), b + Zeros(|i|))[k] == Xor(y, Zeros(n) + s)[k];
    }
    if r == s { assert e == Xor(x, y); }
  }

  lemma OnlyRemainder(q: seq<Bit>, g: seq<Bit>, x: seq<Bit>, y: seq<Bit>, r: seq<Bit>, s: seq<Bit>, n: nat)
    requires g != [] && g[0] == 1 && |q| == n && |r| == |s| == |g| - 1 && |x| == |y| == n + |r|
    requires Times(q, g) == Xor(x, y) && x == Xor(y, Zeros(n) + Xor(r, s))
    ensures r == s
  {
    SumCancels(x, y, Zeros(n) + Xor(r, s));
    assert forall i | 0 <= i < n :: (Zeros(n) + Xor(r, s))[i] == 0;
    NoMultipleBelow(q, g);
    NoDifference(r, s, n, Times(q, g));
  }

  lemma SumCancels(x: seq<Bit>, y: seq<Bit>, d: seq<Bit>)
    requires |x| == |y| == |d| && x == Xor(y, d)
    ensures Xor(x, y) == d
  {
  }

  lemma NoDifference(r: seq<Bit>, s: seq<Bit>, n: nat, z: seq<Bit>)
    requires |r| == |s| && z == Zeros(n) + Xor(r, s) && z == Zeros(|z|)
    ensures r == s
  {
    forall k | 0 <= k < |r| ensures r[k] == s[k] {
      assert Xor(r, s)[k] == z[n + k] == 0;
    }
  }

  // ---------------------------------------------------------------- the two routines

  const CRC24 := Code(Bits(0xb704ce, 24), Bits(0x864cfb, 24), false)
  const CRC16 := Code(Rev(Bits(0xffff, 16)), Rev(Bits(0xa001, 16)), true)

  lemma ProperCrc24()
    ensures Proper(CRC24) && |CRC24.poly| == 24
    ensures Bits(0xb704ce, 32) == Zeros(8) + CRC24.init
    ensures Bits(0x1864cfb, 32) == Zeros(7) + [1] + CRC24.poly
  {
    var n, m := 8, 24;
    Pow2Of24();
    Cut(0xb704ce, 0, 0xb704ce, n, m, 0x1000000);
    Cut(0x1864cfb, 1, 0x864cfb, n, m, 0x1000000);
    ZeroBits(n);
    ZeroBits(n - 1);
  }

  /** A polynomial of degree below `n` by its powers. */
  function Powers(s: set<nat>, n: nat): seq<Bit> { seq(n, i requires 0 <= i < n => if n - 1 - i in s then 1 else 0) }

  /** The generator and initial value of section 6.1 of RFC 4880, and x^16 + x^15 + x^2 + 1 from all ones. */
  lemma Generators()
    ensures Proper(CRC24) && Proper(CRC16) && !CRC24.low && CRC16.low
    ensures Generator(CRC24) == Powers({24, 23, 18, 17, 14, 11, 10, 7, 6, 5, 4, 3, 1, 0}, 25)
    ensures CRC24.init == Powers({23, 21, 20, 18, 17, 16, 10, 7, 6, 3, 2, 1}, 24)
    ensures Generator(CRC16) == Powers({16, 15, 2, 0}, 17)
    ensures |CRC16.init| == 16 && forall i | 0 <= i < 16 :: CRC16.init[i] == 1
  {
    ProperCrc24();
    ProperCrc16();
    Powers24(0x864cfb, 24, 8);
    Start24(0xb704ce, 24, 8);
    Powers16(0xa001, 16, 8);
    Start16(0xffff, 16, 8);
  }

  lemma Powers24(x: nat, n: nat, w: nat)
    requires x == 0x864cfb && n == 24 && w == 8
    ensures [1] + Bits(x, n) == Powers({24, 23, 18, 17, 14, 11, 10, 7, 6, 5, 4, 3, 1, 0}, 25)
  {
    ThreeBytes(x, 0x86, 0x4c, 0xfb, n, w);
    EightBits(0x86, w, 1, 0, 0, 0, 0, 1, 1, 0);
    EightBits(0x4c, w, 0, 1, 0, 0, 1, 1, 0, 0);
    EightBits(0xfb, w, 1, 1, 1, 1, 1, 0, 1, 1);
  }

  lemma Start24(x: nat, n: nat, w: nat)
    requires x == 0xb704ce && n == 24 && w == 8
    ensures Bits(x, n) == Powers({23, 21, 20, 18, 17, 16, 10, 7, 6, 3, 2, 1}, 24)
  {
    ThreeBytes(x, 0xb7, 0x04, 0xce, n, w);
    EightBits(0xb7, w, 1, 0, 1, 1, 0, 1, 1, 1);
    EightBits(0x04, w, 0, 0, 0, 0, 0, 1, 0, 0);
    EightBits(0xce, w, 1, 1, 0, 0, 1, 1, 1, 0);
  }

  lemma Powers16(x: nat, n: nat, w: nat)
    requires x == 0xa001 && n == 16 && w == 8
    ensures [1] + Rev(Bits(x, n)) == Powers({16, 15, 2, 0}, 17)
  {
    TwoBytes(x, 0xa0, 0x01, n, w);
    EightBits(0xa0, w, 1, 0, 1, 0, 0, 0, 0, 0);
    EightBits(0x01, w, 0, 0, 0, 0, 0, 0, 0, 1);
    assert Bits(x, n) == [1, 0, 1, 0, 0, 0, 0, 0, 0, 0, 0, 0, 0, 0, 0, 1];
    BackToFront(Bits(x, n));
  }

  lemma BackToFront(s: seq<Bit>)
    requires s == [1, 0, 1, 0, 0, 0, 0, 0, 0, 0, 0, 0, 0, 0, 0, 1]
    ensures [1] + Rev(s) == Powers({16, 15, 2, 0}, 17)
  {
    assert Rev(s) == [1, 0, 0, 0, 0, 0, 0, 0, 0, 0, 0, 0, 0, 1, 0, 1];
  }

  lemma Start16(x: nat, n: nat, w: nat)
    requires x == 0xffff && n == 16 && w == 8
    ensures forall i | 0 <= i < 16 :: Rev(Bits(x, n))[i] == 1
  {
    TwoBytes(x, 0xff, 0xff, n, w);
    EightBits(0xff, w, 1, 1, 1, 1, 1, 1, 1, 1);
  }

  lemma ThreeBytes(x: nat, a: Byte, b: Byte, c: Byte, n: nat, w: nat)
    requires x == a * 0x10000 + b * 0x100 + c && n == 24 && w == 8
    ensures Bits(x, n) == Bits(a, w) + Bits(b, w) + Bits(c, w)
  {
    assert Pow2(8) == 0x100;
    Cut(x, a * 0x100 + b, c, w + w, w, 0x100);
    Cut(a * 0x100 + b, a, b, w, w, 0x100);
  }

  lemma TwoBytes(x: nat, a: Byte, b: Byte, n: nat, w: nat)
    requires x == a * 0x100 + b && n == 16 && w == 8
    ensures Bits(x, n) == Bits(a, w) + Bits(b, w)
  {
    assert Pow2(8) == 0x100;
    Cut(x, a, b, w, w, 0x100);
  }

  lemma EightBits(b: Byte, w: nat, x7: Bit, x6: Bit, x5: Bit, x4: Bit, x3: Bit, x2: Bit, x1: Bit, x0: Bit)
    requires w == 8 && b == 128 * x7 + 64 * x6 + 32 * x5 + 16 * x4 + 8 * x3 + 4 * x2 + 2 * x1 + x0
    ensures Bits(b, w) == [x7, x6, x5, x4, x3, x2, x1, x0]
  {
    var h, l, n := 8 * x7 + 4 * x6 + 2 * x5 + x4, 8 * x3 + 4 * x2 + 2 * x1 + x0, w - 4;
    FourBits(h, n, x7, x6, x5, x4);
    FourBits(l, n, x3, x2, x1, x0);
    assert Pow2(4) == 16;
    Cut(b, h, l, n, n, 16);
    Nibbles([x7, x6, x5, x4], [x3, x2, x1, x0]);
  }

  lemma Nibbles(h: seq<Bit>, l: seq<Bit>)
    requires |h| == |l| == 4
    ensures h + l == [h[0], h[1], h[2], h[3], l[0], l[1], l[2], l[3]]
  {
  }

  lemma FourBits(b: nat, w: nat, x3: Bit, x2: Bit, x1: Bit, x0: Bit)
    requires w == 4 && b == 8 * x3 + 4 * x2 + 2 * x1 + x0
    ensures Bits(b, w) == [x3, x2, x1, x0]
  {
    var n := w - 2;
    assert Pow2(2) == 4;
    Cut(b, 2 * x3 + x2, 2 * x1 + x0, n, n, 4);
    TwoBits(2 * x3 + x2, n, x3, x2);
    TwoBits(2 * x1 + x0, n, x1, x0);
  }

  lemma TwoBits(b: nat, w: nat, x1: Bit, x0: Bit)
    requires w == 2 && b == 2 * x1 + x0
    ensures Bits(b, w) == [x1, x0]
  {
  }

  lemma Pow2Of24()
    ensures Pow2(24) == 0x1000000
  {
    assert Pow2(8) == 0x100;
    Pow2Sum(8, 8);
    Pow2Sum(16, 8);
  }

  lemma ProperCrc16()
    ensures Proper(CRC16) && |CRC16.poly| == 16
  {
    var n, m := 1, 15;
    assert Pow2(8) == 0x100 && Pow2(7) == 0x80;
    Pow2Sum(8, 7);
    Cut(0xa001, 1, 0x2001, n, m, 0x8000);
    assert Bits(0xa001, 16)[0] == 1;
  }

  /** `String::crc24`: a 32-bit word whose upper eight bits stay clear. */
  method ComputeCrc24(binary: array<Byte>, size: nat) returns (crc: seq<Bit>)
    requires size <= binary.Length
    ensures Proper(CRC24) && crc == Zeros(8) + Checksum(CRC24, binary[..size])
  {
    ProperCrc24();
    crc := Run24(binary, size, Bits(0xb704ce, 32), Bits(0x1864cfb, 32), CRC24);
  }

  method Run24(binary: array<Byte>, size: nat, init: seq<Bit>, full: seq<Bit>, ghost c: Code) returns (crc: seq<Bit>)
    requires size <= binary.Length && Proper(c) && |c.poly| == 24 && !c.low
    requires init == Zeros(8) + c.init && full == Zeros(7) + [1] + c.poly
    ensures crc == Zeros(8) + Checksum(c, binary[..size])
  {
    crc := init;
    ghost var r, m := c.init, Octets(binary[..size], false);
    var n := 0;
    while n < size
      invariant n <= size && crc == Zeros(8) + r && |r| == 24
      invariant From(r, c.poly, m[n..]) == Checksum(c, binary[..size])
    {
      ghost var o: Octet := Bits(binary[n], 8);
      assert m[n] == o && m[n..][1..] == m[n + 1..];
      AddByte24(r, o);
      crc := Xor(crc, Shl(Zeros(24) + Bits(binary[n], 8), 16));
      crc := ShiftByte24(crc, full, Xor(r, o + Zeros(16)), c.poly);
      r := Step(r, c.poly, o);
      n := n + 1;
    }
    crc := Zeros(8) + crc[8..];
  }

  lemma AddByte24(r: seq<Bit>, o: Octet)
    requires |r| == 24
    ensures Xor(Zeros(8) + r, Shl(Zeros(24) + o, 16)) == Zeros(8) + Xor(r, o + Zeros(16))
  {
  }

  lemma AddByte16(w: seq<Bit>, o: Octet)
    requires |w| == 16
    ensures Rev(Xor(w, Zeros(8) + o)) == Xor(Rev(w), Rev(o) + Zeros(8))
  {
  }

  method ShiftByte24(word: seq<Bit>, full: seq<Bit>, ghost x: seq<Bit>, ghost poly: seq<Bit>) returns (crc: seq<Bit>)
    requires |x| == |poly| == 24 && word == Zeros(8) + x && full == Zeros(7) + [1] + poly
    ensures crc == Zeros(8) + Shifts(x, poly, 8)
  {
    crc := word;
    ghost var r := x;
    for i := 0 to 8
      invariant |r| == 24 && crc == Zeros(8) + r && Shifts(r, poly, 8 - i) == Shifts(x, poly, 8)
    {
      WordShift24(crc, r, poly, full);
      crc := Shl(crc, 1);
      if crc[7] == 1 { crc := Xor(crc, full); }
      r := Shift(r, poly);
    }
  }

  /** The 32-bit word shifts as its lower 24 bits do. */
  lemma WordShift24(w: seq<Bit>, r: seq<Bit>, poly: seq<Bit>, full: seq<Bit>)
    requires |r| == |poly| == 24 && w == Zeros(8) + r && full == Zeros(7) + [1] + poly
    ensures Shl(w, 1)[7] == r[0]
    ensures r[0] == 1 ==> Xor(Shl(w, 1), full) == Zeros(8) + Shift(r, poly)
    ensures r[0] == 0 ==> Shl(w, 1) == Zeros(8) + Shift(r, poly)
  {
  }

  /** `String::crc16`: the register's first bit is the word's lowest. */
  method ComputeCrc16(binary: array<Byte>, size: nat) returns (crc: seq<Bit>)
    requires size <= binary.Length
    ensures Proper(CRC16) && |crc| == 16 && Rev(crc) == Checksum(CRC16, binary[..size])
  {
    ProperCrc16();
    crc := Run16(binary, size, Bits(0xffff, 16), Bits(0xa001, 16), CRC16);
  }

  method Run16(binary: array<Byte>, size: nat, init: seq<Bit>, poly: seq<Bit>, ghost c: Code) returns (crc: seq<Bit>)
    requires size <= binary.Length && Proper(c) && |poly| == |init| == 16 && c.low
    requires c.init == Rev(init) && c.poly == Rev(poly)
    ensures |crc| == 16 && Rev(crc) == Checksum(c, binary[..size])
  {
    crc := init;
    ghost var m := Octets(binary[..size], true);
    var n := 0;
    while n < size
      invariant n <= size && |crc| == 16
      invariant From(Rev(crc), c.poly, m[n..]) == Checksum(c, binary[..size])
    {
      ghost var r, o := Rev(crc), m[n];
      assert o == Rev(Bits(binary[n], 8)) && m[n..][1..] == m[n + 1..];
      AddByte16(crc, Bits(binary[n], 8));
      crc := Xor(crc, Zeros(8) + Bits(binary[n], 8));
      crc := ShiftByte16(crc, poly);
      n := n + 1;
    }
  }

  method ShiftByte16(word: seq<Bit>, poly: seq<Bit>) returns (crc: seq<Bit>)
    requires |word| == |poly| == 16
    ensures |crc| == 16 && Rev(crc) == Shifts(Rev(word), Rev(poly), 8)
  {
    crc := word;
    ghost var r, p := Rev(word), Rev(poly);
    for i := 0 to 8
      invariant |crc| == 16 && r == Rev(crc) && Shifts(r, p, 8 - i) == Shifts(Rev(word), p, 8)
    {
      crc := ShiftBit16(crc, poly);
      r := Shift(r, p);
    }
  }

  method ShiftBit16(word: seq<Bit>, poly: seq<Bit>) returns (crc: seq<Bit>)
    requires |word| == |poly| == 16
    ensures |crc| == 16 && Rev(crc) == Shift(Rev(word), Rev(poly))
  {
    WordShift16(word, poly);
    if word[15] == 1 { crc := Xor(Shr(word, 1), poly); } else { crc := Shr(word, 1); }
  }

  lemma WordShift16(w: seq<Bit>, poly: seq<Bit>)
    requires |w| == |poly| == 16
    ensures w[15] == 1 ==> Rev(Xor(Shr(w, 1), poly)) == Shift(Rev(w), Rev(poly))
    ensures w[15] == 0 ==> Rev(Shr(w, 1)) == Shift(Rev(w), Rev(poly))
  {
    assert Rev(Shr(w, 1)) == Rev(w)[1..] + [0];
    assert Rev(Xor(Shr(w, 1), poly)) == Xor(Rev(Shr(w, 1)), Rev(poly));
  }

  /** The bytes of a checksum: `crc24` most significant first, `crc16` least significant first. */
  lemma BigEndian24(w: seq<Bit>)
    requires |w| == 24
    ensures BytesOf(w, false) == [ByteOf(w[..8], false), ByteOf(w[8..16], false), ByteOf(w[16..], false)]
  {
    var x, y := w[8..], w[16..];
    assert x[..8] == w[8..16] && x[8..] == y && y[..8] == y && y[8..] == [];
    assert BytesOf(y, false) == [ByteOf(y, false)];
    assert BytesOf(x, false) == [ByteOf(x[..8], false)] + BytesOf(y, false);
  }

  lemma LittleEndian16(w: seq<Bit>)
    requires |w| == 16
    ensures BytesOf(Rev(w), true) == [ByteOf(w[8..], false), ByteOf(w[..8], false)]
  {
    var r := Rev(w);
    var x := r[8..];
    assert Rev(r[..8]) == w[8..] && Rev(x) == w[..8] && x[..8] == x && x[8..] == [];
    assert BytesOf(x, true) == [ByteOf(x, true)];
  }
}
