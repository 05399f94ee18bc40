/** Numbers as strings of bits. */
module BitStrings {
  type Bit = b: int | b == 0 || b == 1
  type Octet = o: seq<Bit> | |o| == 8 witness [0, 0, 0, 0, 0, 0, 0, 0]

  function Pow2(n: nat): nat { if n == 0 then 1 else 2 * Pow2(n - 1) }

  /** The low `n` bits of `v`, most significant first. */
  function Bits(v: nat, n: nat): (s: seq<Bit>)
    ensures |s| == n
  {
    if n == 0 then [] else Bits(v / 2, n - 1) + [v % 2]
  }

  function FromBits(s: seq<Bit>): (v: nat)
    ensures v < Pow2(|s|)
  {
    if s == [] then 0 else 2 * FromBits(s[..|s| - 1]) + s[|s| - 1]
  }

  function Zeros(n: nat): (s: seq<Bit>) { seq(n, _ => 0) }

  function Xor(a: seq<Bit>, b: seq<Bit>): (c: seq<Bit>)
    requires |a| == |b|
    ensures |c| == |a| && forall i :: 0 <= i < |c| ==> c[i] == if a[i] == b[i] then 0 else 1
  {
    seq(|a|, i requires 0 <= i < |a| => if a[i] == b[i] then 0 else 1)
  }

  // Words are bit strings, most significant bit first.
  function Shl(w: seq<Bit>, n: nat): seq<Bit>
    requires n <= |w|
  {
    w[n..] + Zeros(n)
  }

  function Shr(w: seq<Bit>, n: nat): seq<Bit>
    requires n <= |w|
  {
    Zeros(n) + w[..|w| - n]
  }

  lemma {:induction false} Join(h: nat, l: nat, n: nat, m: nat)
    requires l < Pow2(m)
    ensures Bits(h * Pow2(m) + l, n + m) == Bits(h, n) + Bits(l, m)
  {
    if m > 0 {
      Join(h, l / 2, n, m - 1);
      Doubled(h, Pow2(m - 1));
      var k := h * Pow2(m - 1);
      assert h * Pow2(m) + l == 2 * k + l;
    }
  }

  lemma Doubled(h: nat, p: nat)
    ensures h * (2 * p) == 2 * (h * p)
  {
  }

  lemma {:induction false} FromBitsBack(v: nat, n: nat)
    requires v < Pow2(n)
    ensures FromBits(Bits(v, n)) == v
  {
    if n > 0 {
      FromBitsBack(v / 2, n - 1);
      assert Bits(v, n)[..n - 1] == Bits(v / 2, n - 1);
    }
  }

  lemma {:induction false} ZeroBits(n: nat)
    ensures Bits(0, n) == Zeros(n)
  {
    if n > 0 { ZeroBits(n - 1); }
  }

  lemma {:induction false} BitsBack(s: seq<Bit>)
    ensures Bits(FromBits(s), |s|) == s
  {
    if s != [] {
      BitsBack(s[..|s| - 1]);
    }
  }

  lemma {:induction false} Pow2Sum(n: nat, m: nat)
    ensures Pow2(n + m) == Pow2(n) * Pow2(m)
  {
    if n > 0 { Pow2Sum(n - 1, m); }
  }

  lemma Cut(x: nat, h: nat, l: nat, n: nat, m: nat, p: nat)
    requires x == h * p + l && l < p == Pow2(m)
    ensures Bits(x, n + m) == Bits(h, n) + Bits(l, m)
  {
    Join(h, l, n, m);
  }

  function Flat(u: seq<Octet>): (s: seq<Bit>)
    ensures |s| == 8 * |u|
  {
    if u == [] then [] else u[0] + Flat(u[1..])
  }

  lemma {:induction false} FlatConcat(a: seq<Octet>, b: seq<Octet>)
    ensures Flat(a + b) == Flat(a) + Flat(b)
  {
    if a == [] {
      assert a + b == b;
    } else {
      assert (a + b)[0] == a[0] && (a + b)[1..] == a[1..] + b;
      FlatConcat(a[1..], b);
    }
  }

  lemma {:induction false} FlatInjective(u: seq<Octet>, v: seq<Octet>)
    requires |u| == |v| && Flat(u) == Flat(v)
    ensures u == v
  {
    if u != [] {
      assert u[0] == Flat(u)[..8] && v[0] == Flat(v)[..8];
      assert Flat(u[1..]) == Flat(u)[8..] && Flat(v[1..]) == Flat(v)[8..];
      FlatInjective(u[1..], v[1..]);
    }
  }

  /** Bits above the low `n` do not matter. */
  lemma {:induction false} HighIgnored(v: nat, k: nat, n: nat)
    ensures Bits(v + k * Pow2(n), n) == Bits(v, n)
  {
    if n > 0 {
      Doubled(k, Pow2(n - 1));
      HighIgnored(v / 2, k, n - 1);
      assert (v + 2 * (k * Pow2(n - 1))) / 2 == v / 2 + k * Pow2(n - 1);
    }
  }
}
