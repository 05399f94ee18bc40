/** The bucket of an address: `hash_address` of corelib/thread.cpp. */
module AddressHash {
  import opened BitStrings
  import opened Bytes

  /** A pointer as it lies in memory. */
  type Address = a: seq<Byte> | |a| == 8 witness [0, 0, 0, 0, 0, 0, 0, 0]

  const NULL: Address := [0, 0, 0, 0, 0, 0, 0, 0]

  /** The end of the zero bytes from `i` on, and of the other bytes from `i` on. */
  function ZerosEnd(a: Address, i: nat): (r: nat)
    requires i <= 8
    ensures i <= r <= 8 && (forall j :: i <= j < r ==> a[j] == 0) && (r < 8 ==> a[r] != 0)
    decreases 8 - i
  {
    if i < 8 && a[i] == 0 then ZerosEnd(a, i + 1) else i
  }

  function RunEnd(a: Address, i: nat): (r: nat)
    requires i <= 8
    ensures i <= r <= 8 && (forall j :: i <= j < r ==> a[j] != 0) && (r < 8 ==> a[r] == 0)
    decreases 8 - i
  {
    if i < 8 && a[i] != 0 then RunEnd(a, i + 1) else i
  }

  /** The first bytes of an address that are not zero: all that its bucket depends on. */
  function Significant(a: Address): (run: seq<Byte>)
    ensures |run| <= 8
  {
    a[ZerosEnd(a, 0)..RunEnd(a, ZerosEnd(a, 0))]
  }

  /** Each byte shifted by its distance from the last, added up bit by bit in a 32-bit word. */
  function Weighted(run: seq<Byte>): (w: seq<Bit>)
    requires |run| <= 8
    ensures |w| == 32
  {
    if run == [] then Zeros(32) else Xor(Shl(Zeros(24) + Bits(run[0], 8), |run| - 1), Weighted(run[1..]))
  }

  /** Each byte moves those before it up by one place. */
  lemma LastByte(run: seq<Byte>, b: Byte)
    requires |run| < 8
    ensures Weighted(run + [b]) == Xor(Shl(Weighted(run), 1), Zeros(24) + Bits(b, 8))
    decreases |run|
  {
    if run == [] {
      assert Shl(Zeros(32), 1) == Zeros(32) && [b][1..] == [] && |[b]| == 1;
      assert Xor(Shl(Zeros(24) + Bits(b, 8), 0), Zeros(32)) == Xor(Zeros(32), Zeros(24) + Bits(b, 8));
    } else {
      LastByte(run[1..], b);
      assert (run + [b])[0] == run[0] && (run + [b])[1..] == run[1..] + [b];
      MovedUp(Zeros(24) + Bits(run[0], 8), |run| - 1, Weighted(run[1..]), Zeros(24) + Bits(b, 8));
    }
  }

  lemma MovedUp(x: seq<Bit>, n: nat, w: seq<Bit>, b: seq<Bit>)
    requires |x| == |w| == |b| == 32 && n < 31
    ensures Xor(Shl(x, n + 1), Xor(Shl(w, 1), b)) == Xor(Shl(Xor(Shl(x, n), w), 1), b)
  {
  }

  /** So the order of the bytes matters: two different ones, swapped, give another key. */
  lemma SwapShows(x: Byte, y: Byte)
    requires x != y
    ensures Weighted([x, y]) != Weighted([y, x])
  {
    var a, b := Zeros(24) + Bits(x, 8), Zeros(24) + Bits(y, 8);
    TwoWeighted(x, y);
    TwoWeighted(y, x);
    if Xor(Shl(a, 1), b) == Xor(Shl(b, 1), a) {
      NoShiftFixed(a, b, 32);
      assert a == b;
      ByteShown(x, y, 8);
    }
  }

  lemma TwoWeighted(x: Byte, y: Byte)
    ensures Weighted([x, y]) == Xor(Shl(Zeros(24) + Bits(x, 8), 1), Zeros(24) + Bits(y, 8))
  {
    OneWeighted(x, Zeros(24) + Bits(x, 8));
    assert [x] + [y] == [x, y];
    LastByte([x], y);
  }

  lemma OneWeighted(x: Byte, w: seq<Bit>)
    requires w == Zeros(24) + Bits(x, 8)
    ensures Weighted([x]) == w
  {
    assert [x][1..] == [];
    Unmoved(w);
  }

  lemma Unmoved(w: seq<Bit>)
    requires |w| == 32
    ensures Xor(Shl(w, 0), Zeros(32)) == w
  {
  }

  /** From the last bit up, words that this cannot tell apart are the same. */
  lemma {:induction false} NoShiftFixed(a: seq<Bit>, b: seq<Bit>, k: nat)
    requires |a| == |b| == 32 && Xor(Shl(a, 1), b) == Xor(Shl(b, 1), a) && k <= 32
    ensures forall i | 32 - k <= i < 32 :: a[i] == b[i]
  {
    if k > 0 {
      NoShiftFixed(a, b, k - 1);
      assert Xor(Shl(a, 1), b)[32 - k] == Xor(Shl(b, 1), a)[32 - k];
    }
  }

  lemma ByteShown(x: Byte, y: Byte, w: nat)
    requires w == 8 && Zeros(24) + Bits(x, w) == Zeros(24) + Bits(y, w)
    ensures x == y
  {
    var z := Zeros(24);
    assert Bits(x, w) == (z + Bits(x, w))[24..] && Bits(y, w) == (z + Bits(y, w))[24..];
    assert Pow2(8) == 256;
    FromBitsBack(x, w);
    FromBitsBack(y, w);
  }

  function Hash(a: Address, indexing: nat): (r: nat)
    ensures r < Buckets(indexing)
  {
    if indexing < 2 then 0 else FromBits(Weighted(Significant(a))) % indexing
  }

  function Buckets(indexing: nat): (n: nat)
    ensures n > 0
  {
    if indexing < 2 then 1 else indexing
  }

  /** The two loops of `hash_address`, which shift and add as they go. */
  method ComputeKey(a: Address) returns (key: seq<Bit>)
    ensures key == Weighted(Significant(a))
  {
    var i := 0;
    while i < 8 && a[i] == 0
      invariant 0 <= i <= 8 && ZerosEnd(a, 0) == ZerosEnd(a, i)
    {
      i := i + 1;
    }
    key := FoldRun(a, i);
  }

  method FoldRun(a: Address, start: nat) returns (key: seq<Bit>)
    requires start <= 8
    ensures key == Weighted(a[start..RunEnd(a, start)])
  {
    key := Zeros(32);
    var i := start;
    ghost var end := RunEnd(a, start);
    ghost var target := Weighted(a[start..end]);
    HoldsFirst(a, start, end, target);
    while i < 8 && a[i] != 0
      invariant start <= i <= end <= 8 && RunEnd(a, i) == end && Holds(a, i, end, key, target)
    {
      NextByte(a, i, end, key, target);
      key := Xor(Shl(key, 1), Zeros(24) + Bits(a[i], 8));
      i := i + 1;
    }
    HoldsLast(a, end, key, target);
  }

  /** `key` and the bytes still to come make up `target`. */
  ghost predicate Holds(a: Address, i: nat, end: nat, key: seq<Bit>, target: seq<Bit>)
    requires i <= end <= 8
  {
    |key| == 32 && Xor(Shl(key, end - i), Weighted(a[i..end])) == target
  }

  lemma HoldsFirst(a: Address, i: nat, end: nat, target: seq<Bit>)
    requires i <= end <= 8 && target == Weighted(a[i..end])
    ensures Holds(a, i, end, Zeros(32), target)
  {
    assert Shl(Zeros(32), end - i) == Zeros(32);
  }

  lemma HoldsLast(a: Address, end: nat, key: seq<Bit>, target: seq<Bit>)
    requires end <= 8 && Holds(a, end, end, key, target)
    ensures key == target
  {
    assert Shl(key, 0) == key && Xor(key, Zeros(32)) == key;
  }

  lemma NextByte(a: Address, i: nat, end: nat, key: seq<Bit>, target: seq<Bit>)
    requires i < end <= 8 && Holds(a, i, end, key, target)
    ensures Holds(a, i + 1, end, Xor(Shl(key, 1), Zeros(24) + Bits(a[i], 8)), target)
  {
    assert a[i..end][1..] == a[i + 1..end];
    ShiftThenAdd(key, Zeros(24) + Bits(a[i], 8), end - i - 1, Weighted(a[i + 1..end]));
  }

  /** Shifting with every byte, or once at the end. */
  lemma ShiftThenAdd(key: seq<Bit>, b: seq<Bit>, n: nat, w: seq<Bit>)
    requires |key| == |b| == |w| == 32 && n < 32
    ensures Xor(Shl(Xor(Shl(key, 1), b), n), w) == Xor(Shl(key, n + 1), Xor(Shl(b, n), w))
  {
  }

  /** `hash_address`: a bucket of the table, the same for all addresses with the same significant bytes. */
  method HashAddress(a: Address, indexing: nat) returns (r: nat)
    ensures r == Hash(a, indexing) < Buckets(indexing)
    ensures forall b: Address :: Significant(b) == Significant(a) ==> Hash(b, indexing) == r
  {
    if indexing < 2 { return 0; }
    var key := ComputeKey(a);
    r := FromBits(key) % indexing;
  }
}
