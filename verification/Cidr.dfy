/** Address blocks and their lookup (section 3.1 of RFC 4632): class `cidr` of corelib/socket.cpp. */
module Cidr {
  import opened BitStrings
  import opened Options

  function Ones(n: nat): (s: seq<Bit>) { seq(n, _ => 1) }

  function LeadingOnes(s: seq<Bit>): (n: nat)
    ensures n <= |s| && s[..n] == Ones(n) && (n < |s| ==> s[n] == 0)
  {
    if s == [] || s[0] == 0 then 0 else 1 + LeadingOnes(s[1..])
  }

  function And(a: seq<Bit>, b: seq<Bit>): (c: seq<Bit>)
    requires |a| == |b|
    ensures |c| == |a| && forall i :: 0 <= i < |c| ==> c[i] == if b[i] == 1 then a[i] else 0
  {
    seq(|a|, i requires 0 <= i < |a| => if b[i] == 1 then a[i] else 0)
  }

  function OrNot(a: seq<Bit>, b: seq<Bit>): (c: seq<Bit>)
    requires |a| == |b|
    ensures |c| == |a| && forall i :: 0 <= i < |c| ==> c[i] == if b[i] == 1 then a[i] else 1
  {
    seq(|a|, i requires 0 <= i < |a| => if b[i] == 1 then a[i] else 1)
  }

  // ---------------------------------------------------------------- bytes in place

  /** `bitmask`. */
  method BitMask(bits: array<Octet>, mask: seq<Octet>)
    requires bits.Length == |mask|
    modifies bits
    ensures Flat(bits[..]) == And(Flat(old(bits[..])), Flat(mask))
  {
    ghost var was := bits[..];
    var k := 0;
    while k < |mask|
      invariant k <= |mask| && bits[k..] == was[k..]
      invariant Flat(bits[..k]) == And(Flat(was[..k]), Flat(mask[..k]))
    {
      ghost var before := bits[..k];
      bits[k] := And(bits[k], mask[k]);
      assert bits[..k + 1] == before + [bits[k]] && was[..k + 1] == was[..k] + [was[k]];
      assert mask[..k + 1] == mask[..k] + [mask[k]];
      FlatLast(before, bits[k]);
      FlatLast(was[..k], was[k]);
      FlatLast(mask[..k], mask[k]);
      k := k + 1;
    }
    assert bits[..k] == bits[..] && was[..k] == was && mask[..k] == mask;
  }

  lemma FlatLast(a: seq<Octet>, o: Octet)
    ensures Flat(a + [o]) == Flat(a) + o
  {
    FlatConcat(a, [o]);
  }

  /** `bitimask`. */
  method BitInverseMask(bits: array<Octet>, mask: seq<Octet>)
    requires bits.Length == |mask|
    modifies bits
    ensures Flat(bits[..]) == OrNot(Flat(old(bits[..])), Flat(mask))
  {
    ghost var was := bits[..];
    var k := 0;
    while k < |mask|
      invariant k <= |mask| && bits[k..] == was[k..]
      invariant Flat(bits[..k]) == OrNot(Flat(was[..k]), Flat(mask[..k]))
    {
      ghost var before := bits[..k];
      bits[k] := OrNot(bits[k], mask[k]);
      assert bits[..k + 1] == before + [bits[k]] && was[..k + 1] == was[..k] + [was[k]];
      assert mask[..k + 1] == mask[..k] + [mask[k]];
      FlatLast(before, bits[k]);
      FlatLast(was[..k], was[k]);
      FlatLast(mask[..k], mask[k]);
      k := k + 1;
    }
    assert bits[..k] == bits[..] && was[..k] == was && mask[..k] == mask;
  }

  /** `bitset`: the first `blen` bits become ones. */
  method BitSet(bits: array<Octet>, blen: nat)
    requires blen <= 8 * bits.Length
    modifies bits
    ensures Flat(bits[..]) == Ones(blen) + Flat(old(bits[..]))[blen..]
  {
    ghost var was := Flat(bits[..]);
    var left, k := blen, 0;
    assert Ones(0) + was[0..] == was;
    while left > 0
      invariant 0 <= left <= blen && (left > 0 ==> blen - left == 8 * k)
      invariant Flat(bits[..]) == Ones(blen - left) + was[blen - left..]
      decreases left
    {
      left := BitSetByte(bits, k, left, blen, was);
      k := k + 1;
    }
  }

  /** The inner loop of `bitset`: the ones that go into byte `k`. */
  method BitSetByte(bits: array<Octet>, k: nat, count: nat, ghost blen: nat, ghost was: seq<Bit>) returns (left: nat)
    requires 0 < count <= blen <= 8 * bits.Length == |was| && blen - count == 8 * k
    requires Flat(bits[..]) == Ones(blen - count) + was[blen - count..]
    modifies bits
    ensures left < count && (left > 0 ==> blen - left == 8 * (k + 1))
    ensures Flat(bits[..]) == Ones(blen - left) + was[blen - left..]
  {
    left := count;
    var mask := 0;
    while mask < 8 && left > 0
      invariant 0 <= mask <= 8 && left + mask == count
      invariant Flat(bits[..]) == Ones(blen - left) + was[blen - left..]
    {
      FlatUpdate(bits[..], k, mask);
      OneMore(was, blen - left);
      bits[k] := bits[k][mask := 1];
      mask, left := mask + 1, left - 1;
    }
  }

  lemma OneMore(was: seq<Bit>, d: nat)
    requires d < |was|
    ensures (Ones(d) + was[d..])[d := 1] == Ones(d + 1) + was[d + 1..]
  {
  }

  lemma FlatUpdate(s: seq<Octet>, k: nat, j: nat)
    requires k < |s| && j < 8
    ensures Flat(s[k := s[k][j := 1]]) == Flat(s)[8 * k + j := 1]
  {
    var t := s[k][j := 1];
    assert s == s[..k] + [s[k]] + s[k + 1..] && s[k := t] == s[..k] + [t] + s[k + 1..];
    FlatConcat(s[..k] + [s[k]], s[k + 1..]);
    FlatConcat(s[..k] + [t], s[k + 1..]);
    FlatLast(s[..k], s[k]);
    FlatLast(s[..k], t);
  }

  /** `bitcount`: the ones a mask begins with. */
  method BitCount(bits: seq<Octet>) returns (count: nat)
    ensures count == LeadingOnes(Flat(bits))
  {
    count := 0;
    var k := 0;
    FlatWhole(bits);
    while k < |bits|
      invariant k <= |bits| && count == 8 * k
      invariant Flat(bits)[..count] == Ones(count)
    {
      var mask := 0;
      while mask < 8
        invariant 0 <= mask <= 8 && count == 8 * k + mask && Flat(bits)[..count] == Ones(count)
      {
        FlatAt(bits, k, mask);
        if bits[k][mask] == 0 {
          LeadingUnique(Flat(bits), count);
          return;
        }
        assert Flat(bits)[..count + 1] == Flat(bits)[..count] + [1];
        count, mask := count + 1, mask + 1;
      }
      k := k + 1;
    }
    LeadingUnique(Flat(bits), count);
  }

  lemma FlatWhole(s: seq<Octet>)
    ensures |Flat(s)| == 8 * |s|
  {
  }

  lemma {:induction false} FlatAt(s: seq<Octet>, k: nat, j: nat)
    requires k < |s| && j < 8
    ensures Flat(s)[8 * k + j] == s[k][j]
  {
    if k > 0 { FlatAt(s[1..], k - 1, j); }
  }

  lemma LeadingUnique(s: seq<Bit>, n: nat)
    requires n <= |s| && s[..n] == Ones(n) && (n < |s| ==> s[n] == 0)
    ensures LeadingOnes(s) == n
  {
    var m := LeadingOnes(s);
    assert forall i :: 0 <= i < n ==> s[i] == s[..n][i];
    assert forall i :: 0 <= i < m ==> s[i] == s[..m][i];
  }

  // ---------------------------------------------------------------- blocks

  datatype Family = Unspec | Inet | Inet6

  /** Bytes of an address. */
  function Size(f: Family): nat { match f case Unspec => 0 case Inet => 4 case Inet6 => 16 }

  datatype Address = Address(family: Family, host: seq<Octet>)
  datatype Block = Block(family: Family, network: seq<Octet>, netmask: seq<Octet>)

  predicate Sound(x: Address) { |x.host| == Size(x.family) }

  /** A block as `cidr::set` leaves it: a mask of leading ones, and no network bits beyond it. */
  ghost predicate Valid(b: Block) {
    && |b.network| == |b.netmask| == Size(b.family)
    && Mask(b) == Ones(Prefix(b)) + Zeros(|Mask(b)| - Prefix(b))
    && Flat(b.network) == And(Flat(b.network), Mask(b))
  }

  ghost function Mask(b: Block): seq<Bit> { Flat(b.netmask) }
  ghost function Prefix(b: Block): (n: nat) { LeadingOnes(Flat(b.netmask)) }

  /** The block's addresses: those of its family that begin with its prefix. */
  ghost predicate Member(b: Block, x: Address) {
    && b.family == x.family != Unspec && |x.host| == |b.network| && Prefix(b) <= 8 * |b.network|
    && Flat(x.host)[..Prefix(b)] == Flat(b.network)[..Prefix(b)]
  }

  /** Every address of `inner` is one of `outer`. */
  ghost predicate Within(inner: Block, outer: Block) {
    forall x: Address | Sound(x) && Member(inner, x) :: Member(outer, x)
  }

  /** The mask of `cidr::set`: cleared, then its first bits set. */
  method MakeMask(size: nat, len: nat) returns (netmask: array<Octet>)
    requires len <= 8 * size
    ensures fresh(netmask) && netmask.Length == size
    ensures Flat(netmask[..]) == Ones(len) + Zeros(8 * size)[len..]
  {
    var zero: Octet := [0, 0, 0, 0, 0, 0, 0, 0];
    netmask := new Octet[size](_ => zero);
    FlatZeros(netmask[..]);
    BitSet(netmask, len);
  }

  /** The end of `cidr::set`, once the text is read as an address and a prefix length. */
  method MakeBlock(family: Family, address: seq<Octet>, len: nat) returns (b: Block)
    requires |address| == Size(family) && len <= 8 * Size(family)
    ensures Valid(b) && b.family == family && Prefix(b) == len
    ensures Flat(b.network)[..len] == Flat(address)[..len]
  {
    var netmask := MakeMask(Size(family), len);
    var network := new Octet[Size(family)](i requires 0 <= i < Size(family) => address[i]);
    assert network[..] == address;
    BitMask(network, netmask[..]);
    b := Block(family, network[..], netmask[..]);
    MaskedOnce(Flat(address), Flat(b.network), Mask(b), len);
  }

  lemma MaskedOnce(x: seq<Bit>, y: seq<Bit>, m: seq<Bit>, n: nat)
    requires |x| == |m| && n <= |m| && m == Ones(n) + Zeros(|m|)[n..] && y == And(x, m)
    ensures m == Ones(n) + Zeros(|m| - n) && LeadingOnes(m) == n && y == And(y, m) && y[..n] == x[..n]
  {
    assert Zeros(|m|)[n..] == Zeros(|m| - n);
    LeadingUnique(m, n);
  }

  lemma {:induction false} FlatZeros(s: seq<Octet>)
    requires forall i :: 0 <= i < |s| ==> s[i] == Zeros(8)
    ensures Flat(s) == Zeros(8 * |s|)
  {
    if s != [] { FlatZeros(s[1..]); }
  }

  /** `cidr::mask`. */
  method MaskOf(b: Block) returns (n: nat)
    ensures n == if b.family == Unspec then 0 else Prefix(b)
  {
    if b.family == Unspec { return 0; }
    n := BitCount(b.netmask);
  }

  /** `cidr::is_member`: masking and comparing finds exactly the addresses with the block's prefix. */
  method IsMember(b: Block, x: Address) returns (yes: bool)
    requires Valid(b) && Sound(x)
    ensures yes <==> Member(b, x)
  {
    if x.family != b.family || b.family == Unspec { return false; }
    var host := new Octet[|x.host|](i requires 0 <= i < |x.host| => x.host[i]);
    assert host[..] == x.host;
    BitMask(host, b.netmask);
    yes := host[..] == b.network;
    MaskedEqual(Flat(x.host), Flat(b.network), Mask(b), Prefix(b));
    if Flat(host[..]) == Flat(b.network) { FlatInjective(host[..], b.network); }
  }

  lemma MaskedEqual(x: seq<Bit>, y: seq<Bit>, m: seq<Bit>, n: nat)
    requires |x| == |y| == |m| && n <= |m| && m == Ones(n) + Zeros(|m| - n) && y == And(y, m)
    ensures And(x, m) == y <==> x[..n] == y[..n]
  {
    if And(x, m) == y {
      forall i | 0 <= i < n ensures x[i] == y[i] { assert And(x, m)[i] == y[i]; }
    }
    if x[..n] == y[..n] {
      forall i | 0 <= i < |x| ensures And(x, m)[i] == y[i] {
        if i < n { assert x[i] == x[..n][i] == y[..n][i]; } else { assert y[i] == And(y, m)[i]; }
      }
    }
  }

  /** `cidr::broadcast`: the block's network bits, then ones. */
  method Broadcast(b: Block) returns (last: seq<Octet>)
    requires Valid(b)
    ensures |last| == |b.network| && Prefix(b) <= 8 * |b.network|
    ensures Flat(last) == Flat(b.network)[..Prefix(b)] + Ones(8 * |b.network| - Prefix(b))
  {
    var bcast := new Octet[|b.network|](i requires 0 <= i < |b.network| => b.network[i]);
    assert bcast[..] == b.network;
    BitInverseMask(bcast, b.netmask);
    last := bcast[..];
  }

  // ---------------------------------------------------------------- nesting

  /** Of two blocks that share an address, the one with the longer prefix lies within the other. */
  lemma Nested(a: Block, b: Block, x: Address)
    requires Valid(a) && Valid(b) && Member(a, x) && Member(b, x) && Prefix(b) <= Prefix(a)
    ensures Within(a, b)
  {
    var n, m := Prefix(a), Prefix(b);
    forall y: Address | Sound(y) && Member(a, y) ensures Member(b, y) {
      assert Flat(y.host)[..m] == Flat(y.host)[..n][..m] == Flat(x.host)[..n][..m] == Flat(x.host)[..m];
    }
  }

  // ---------------------------------------------------------------- a block is a range

  lemma OneMoreBit(a: seq<Bit>, b: seq<Bit>, c: seq<Bit>)
    requires b != [] && c == b[..|b| - 1]
    ensures FromBits(a + b) == 2 * FromBits(a + c) + b[|b| - 1]
    ensures FromBits(b) == 2 * FromBits(c) + b[|b| - 1]
  {
    assert (a + b)[..|a + b| - 1] == a + c;
  }

  lemma {:induction false} FromBitsConcat(a: seq<Bit>, b: seq<Bit>)
    ensures FromBits(a + b) == FromBits(a) * Pow2(|b|) + FromBits(b)
  {
    if b == [] {
      assert a + b == a;
    } else {
      var c := b[..|b| - 1];
      FromBitsConcat(a, c);
      OneMoreBit(a, b, c);
      Doubled(FromBits(a), Pow2(|c|));
    }
  }

  lemma {:induction false} OnesAndZeros(k: nat)
    ensures FromBits(Ones(k)) == Pow2(k) - 1 && FromBits(Zeros(k)) == 0
  {
    if k > 0 {
      OnesAndZeros(k - 1);
      assert Ones(k)[..k - 1] == Ones(k - 1) && Zeros(k)[..k - 1] == Zeros(k - 1);
    }
  }

  /** Among strings of one length, those that begin with `p` are the numbers from `p` followed by zeros to
      `p` followed by ones. */
  lemma PrefixRange(p: seq<Bit>, q: seq<Bit>, t: seq<Bit>)
    requires |p| == |q|
    ensures p == q <==> FromBits(p + Zeros(|t|)) <= FromBits(q + t) <= FromBits(p + Ones(|t|))
  {
    ValueRange(p, q, t, FromBits(p), FromBits(q));
    if p != q { SameValue(p, q, FromBits(p), FromBits(q)); }
  }

  lemma SameValue(p: seq<Bit>, q: seq<Bit>, m: nat, n: nat)
    requires |p| == |q| && m == FromBits(p) && n == FromBits(q)
    ensures p == q <==> m == n
  {
    if m == n {
      BitsBack(p);
      BitsBack(q);
    }
  }

  lemma ValueRange(p: seq<Bit>, q: seq<Bit>, t: seq<Bit>, m: nat, n: nat)
    requires m == FromBits(p) && n == FromBits(q)
    ensures m == n <==> FromBits(p + Zeros(|t|)) <= FromBits(q + t) <= FromBits(p + Ones(|t|))
  {
    var z, o, k := Zeros(|t|), Ones(|t|), Pow2(|t|);
    FromBitsConcat(p, z);
    FromBitsConcat(q, t);
    FromBitsConcat(p, o);
    OnesAndZeros(|t|);
    Between(m, n, FromBits(t), k, FromBits(p + z), FromBits(q + t), FromBits(p + o));
  }

  lemma Between(p: nat, q: nat, t: nat, k: nat, low: nat, x: nat, high: nat)
    requires t < k && low == p * k && x == q * k + t && high == p * k + (k - 1)
    ensures p == q <==> low <= x <= high
  {
    if p < q { Larger(p, q, k); }
    if q < p { Larger(q, p, k); }
  }

  lemma Larger(p: nat, q: nat, k: nat)
    requires p < q
    ensures p * k + k <= q * k
  {
    assert (p + 1) * k <= q * k;
  }

  /** The block's addresses are those from its network address to its broadcast address, by value. */
  lemma MembersAreRange(b: Block, x: Address, last: seq<Octet>)
    requires Valid(b) && Sound(x) && x.family == b.family != Unspec && Prefix(b) <= 8 * |b.network| == |Flat(last)|
    requires Flat(last) == Flat(b.network)[..Prefix(b)] + Ones(8 * |b.network| - Prefix(b))
    ensures Member(b, x) <==>
      FromBits(Flat(b.network)) <= FromBits(Flat(x.host)) <= FromBits(Flat(last))
  {
    var n := Prefix(b);
    var net, host := Flat(b.network), Flat(x.host);
    NetworkForm(net, Mask(b), n);
    assert host == host[..n] + host[n..];
    PrefixRange(net[..n], host[..n], host[n..]);
  }

  lemma NetworkForm(net: seq<Bit>, mask: seq<Bit>, n: nat)
    requires |net| == |mask| && n <= |mask| && mask == Ones(n) + Zeros(|mask| - n) && net == And(net, mask)
    ensures net == net[..n] + Zeros(|net| - n)
  {
    forall i | n <= i < |net| ensures net[i] == 0 { assert net[i] == And(net, mask)[i]; }
  }

  // ---------------------------------------------------------------- lookup

  /** `cidr::find`: the place in the list of the first of the longest prefixes. */
  method Find(policy: seq<Block>, x: Address) returns (found: Option<nat>)
    requires Sound(x) && forall b :: b in policy ==> Valid(b)
    ensures found.None? <==> forall b :: b in policy && Member(b, x) ==> Prefix(b) == 0
    ensures found.Some? ==> found.value < |policy| && Member(policy[found.value], x)
    ensures found.Some? ==> forall b :: b in policy && Member(b, x) ==> Within(policy[found.value], b)
    ensures found.Some? ==>
      forall j :: 0 <= j < found.value && Member(policy[j], x) ==> Prefix(policy[j]) < Prefix(policy[found.value])
  {
    found := None;
    var top, i := 0, 0;
    while i < |policy|
      invariant i <= |policy| && (found.None? ==> top == 0)
      invariant found.Some? ==> found.value < i && Member(policy[found.value], x)
      invariant found.Some? ==> top == Prefix(policy[found.value]) > 0
      invariant forall j :: 0 <= j < i && Member(policy[j], x) ==> Prefix(policy[j]) <= top
      invariant found.Some? ==> forall j :: 0 <= j < found.value && Member(policy[j], x) ==> Prefix(policy[j]) < top
    {
      var yes := IsMember(policy[i], x);
      if yes {
        var n := MaskOf(policy[i]);
        if n > top { found, top := Some(i), n; }
      }
      i := i + 1;
    }
    if found.Some? {
      var best := policy[found.value];
      forall b | b in policy && Member(b, x) ensures Within(best, b) { Nested(best, b, x); }
    }
  }

  /** `cidr::container`: the place in the list of the first of the shortest prefixes below 128. */
  method Container(policy: seq<Block>, x: Address) returns (found: Option<nat>)
    requires Sound(x) && forall b :: b in policy ==> Valid(b)
    ensures found.None? <==> forall b :: b in policy && Member(b, x) ==> Prefix(b) >= 128
    ensures found.Some? ==> found.value < |policy| && Member(policy[found.value], x)
    ensures found.Some? ==> forall b :: b in policy && Member(b, x) ==> Within(b, policy[found.value])
    ensures found.Some? ==>
      forall j :: 0 <= j < found.value && Member(policy[j], x) ==> Prefix(policy[j]) > Prefix(policy[found.value])
  {
    found := None;
    var top, i := 128, 0;
    while i < |policy|
      invariant i <= |policy| && (found.None? ==> top == 128)
      invariant found.Some? ==> found.value < i && Member(policy[found.value], x)
      invariant found.Some? ==> top == Prefix(policy[found.value]) < 128
      invariant forall j :: 0 <= j < i && Member(policy[j], x) ==> Prefix(policy[j]) >= top
      invariant found.Some? ==> forall j :: 0 <= j < found.value && Member(policy[j], x) ==> Prefix(policy[j]) > top
    {
      var yes := IsMember(policy[i], x);
      if yes {
        var n := MaskOf(policy[i]);
        if n < top { found, top := Some(i), n; }
      }
      i := i + 1;
    }
    if found.Some? {
      var best := policy[found.value];
      forall b | b in policy && Member(b, x) ensures Within(b, best) { Nested(b, best, x); }
    }
  }
}
