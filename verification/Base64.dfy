/** Base64 text, after section 4 of RFC 4648: `b64encode`, `b64decode`, `b64count` of corelib/string.cpp. */
module Base64 {
  import opened Bytes
  import opened BitStrings

  const PAD: Byte := 61

  /** The 64 characters in order: A-Z, a-z, 0-9, '+' and '/'. */
  function Alphabet(i: nat): (c: Byte)
    requires i < 64
    ensures Sextet(c) == i && c != PAD && c != NUL && !IsSpace(c)
  {
    if i < 26 then 65 + i else if i < 52 then 71 + i else if i < 62 then i - 4 else if i == 62 then 43 else 47
  }

  /** The place of a character in the alphabet; 64 for all others. */
  function Sextet(c: Byte): (i: nat)
    ensures i <= 64
  {
    if 65 <= c < 91 then c - 65 else if 97 <= c < 123 then c - 71 else if 48 <= c < 58 then c + 4
    else if c == 43 then 62 else if c == 47 then 63 else 64
  }

  predicate IsSpace(c: Byte) { 9 <= c <= 13 || c == 32 }

  lemma AlphabetOf(c: Byte)
    requires Sextet(c) < 64
    ensures Alphabet(Sextet(c)) == c
  {
  }

  // ---------------------------------------------------------------- the encoding, by bits

  type Six = x: int | 0 <= x < 64

  /** The numbers of `xs` one after another, `w` bits each. */
  function Stream(xs: seq<nat>, w: nat): (s: seq<Bit>)
    ensures |s| == w * |xs|
  {
    if xs == [] then [] else Bits(xs[0], w) + Stream(xs[1..], w)
  }

  /** The bit string cut into sixes, the last one filled up with zero bits. */
  function Sixes(s: seq<Bit>): (xs: seq<Six>) {
    assert Pow2(6) == 64;
    if s == [] then []
    else if |s| < 6 then [FromBits(s + Zeros(6 - |s|))]
    else [FromBits(s[..6])] + Sixes(s[6..])
  }

  function Spelled(xs: seq<Six>): (t: seq<Byte>)
    ensures |t| == |xs|
  {
    if xs == [] then [] else [Alphabet(xs[0])] + Spelled(xs[1..])
  }

  /** Section 4 of RFC 4648: six bits a character, then padding up to a multiple of four. */
  function Rfc4648(b: seq<Byte>): seq<Byte> {
    var t := Spelled(Sixes(Stream(b, 8)));
    t + if |t| % 4 == 2 then [PAD, PAD] else if |t| % 4 == 3 then [PAD] else []
  }

  // ---------------------------------------------------------------- groups of three and four

  /** One to three bytes in sextets, and two to four sextets in bytes. */
  function Group(b: seq<Byte>): (xs: seq<Six>)
    requires 1 <= |b| <= 3
    ensures |xs| == |b| + 1
  {
    if |b| == 1 then [b[0] / 4, b[0] % 4 * 16]
    else if |b| == 2 then [b[0] / 4, b[0] % 4 * 16 + b[1] / 16, b[1] % 16 * 4]
    else [b[0] / 4, b[0] % 4 * 16 + b[1] / 16, b[1] % 16 * 4 + b[2] / 64, b[2] % 64]
  }

  function Ungroup(xs: seq<Six>): (b: seq<Byte>)
    requires 2 <= |xs| <= 4
    ensures |b| == |xs| - 1
  {
    var x: int, y: int := xs[0], xs[1];
    if |xs| == 2 then [x * 4 + y / 16]
    else
      var z: int := xs[2];
      if |xs| == 3 then [x * 4 + y / 16, y % 16 * 16 + z / 4]
      else [x * 4 + y / 16, y % 16 * 16 + z / 4, z % 4 * 64 + xs[3]]
  }

  function Sextets(b: seq<Byte>): (xs: seq<Six>)
    ensures |xs| == (|b| * 4 + 2) / 3
  {
    if b == [] then [] else if |b| < 3 then Group(b) else Group(b[..3]) + Sextets(b[3..])
  }

  function Octets(xs: seq<Six>): (b: seq<Byte>)
    ensures |b| == |xs| * 3 / 4
  {
    if |xs| < 2 then [] else if |xs| < 4 then Ungroup(xs) else Ungroup(xs[..4]) + Octets(xs[4..])
  }

  function Padding(n: nat): seq<Byte> { if n % 3 == 1 then [PAD, PAD] else if n % 3 == 2 then [PAD] else [] }

  function Encode(b: seq<Byte>): (t: seq<Byte>)
    ensures |t| == (|b| + 2) / 3 * 4
  {
    Spelled(Sextets(b)) + Padding(|b|)
  }

  // ---------------------------------------------------------------- the text read back

  /** What a character of the text means: white space to pass over, a sextet, the pad, or the end (foreign
      characters, and white space unless `ws`). */
  datatype Kind = Skip | Take(x: Six) | PadSign | Stop

  function KindOf(c: Byte, ws: bool): (k: Kind) {
    if IsSpace(c) then (if ws then Skip else Stop)
    else if c == PAD then PadSign
    else if Sextet(c) == 64 then Stop
    else Take(Sextet(c))
  }

  function Kinds(s: seq<Byte>, ws: bool): (ks: seq<Kind>)
    ensures |ks| == |s|
  {
    if s == [] then [] else [KindOf(s[0], ws)] + Kinds(s[1..], ws)
  }

  lemma {:induction false} KindsAt(s: seq<Byte>, ws: bool, i: nat)
    requires i < |s|
    ensures Kinds(s, ws)[i] == KindOf(s[i], ws)
  {
    if i > 0 { KindsAt(s[1..], ws, i - 1); }
  }

  /** The sextets a text stands for, from place `i` on. */
  function ReadFrom(ks: seq<Kind>, i: nat): seq<Six>
    requires i <= |ks|
    decreases |ks| - i
  {
    if i == |ks| then [] else
      match ks[i]
      case Skip => ReadFrom(ks, i + 1)
      case Take(x) => [x] + ReadFrom(ks, i + 1)
      case _ => []
  }

  /** The place where reading stops, when the `n`th sextet is the last one looked at. */
  function StopsAt(ks: seq<Kind>, i: nat, n: int): nat
    requires i <= |ks|
    decreases |ks| - i
  {
    if i == |ks| then i else
      match ks[i]
      case Skip => StopsAt(ks, i + 1, n)
      case Take(x) => if n == 1 then i + 1 else StopsAt(ks, i + 1, n - 1)
      case PadSign => i + PadSigns(ks, i)
      case Stop => i
  }

  function PadSigns(ks: seq<Kind>, i: nat): nat { if i + 1 < |ks| && ks[i + 1].PadSign? then 2 else 1 }

  /** The sextets of a text, and how many of its characters `b64decode` uses up to read `n` of them. */
  function Read(s: seq<Byte>, ws: bool): seq<Six> { ReadFrom(Kinds(s, ws), 0) }
  function Used(s: seq<Byte>, ws: bool, n: int): nat { StopsAt(Kinds(s, ws), 0, n) }

  /** What is written into `size` bytes of room: all of it, or the whole triples that fit. */
  function Fitting(b: seq<Byte>, size: nat): (w: seq<Byte>)
    ensures |w| <= size && w <= b
  {
    if |b| <= size then b else b[..size / 3 * 3]
  }

  /** What is written is the longest beginning of the bytes that fits and is all of them or whole triples. */
  lemma FittingLongest(b: seq<Byte>, size: nat, p: seq<Byte>)
    ensures var w := Fitting(b, size); w <= b && |w| <= size && (w == b || |w| % 3 == 0)
    ensures p <= b && |p| <= size && (p == b || |p| % 3 == 0) ==> p <= Fitting(b, size)
  {
    var w := Fitting(b, size);
    if p <= b && |p| <= size && (p == b || |p| % 3 == 0) {
      if p != b && w != b { assert |p| / 3 <= size / 3; }
      assert |p| <= |w| && p == b[..|p|] && w == b[..|w|];
    }
  }

  // ---------------------------------------------------------------- groups and bits

  /** Three bytes or four sextets, cut alike into six parts. */
  lemma GroupParts(b: seq<nat>, xs: seq<nat>, w: nat, v: nat, n2: nat, n4: nat)
    requires w == 8 && v == 6 && n2 == 2 && n4 == 4 && |b| == 3 && |xs| == 4
    requires forall i :: 0 <= i < 3 ==> b[i] < 256
    requires forall i :: 0 <= i < 4 ==> xs[i] < 64
    requires xs[0] == b[0] / 4 && xs[1] == b[0] % 4 * 16 + b[1] / 16
    requires xs[2] == b[1] % 16 * 4 + b[2] / 64 && xs[3] == b[2] % 64
    ensures Bits(b[0], w) + Bits(b[1], w) + Bits(b[2], w) ==
      Bits(xs[0], v) + Bits(xs[1], v) + Bits(xs[2], v) + Bits(xs[3], v)
  {
    Cut(b[0], xs[0], b[0] % 4, v, n2, 4);
    Cut(xs[1], b[0] % 4, b[1] / 16, n2, n4, 16);
    Cut(b[1], b[1] / 16, b[1] % 16, n4, n4, 16);
    Cut(xs[2], b[1] % 16, b[2] / 64, n4, n2, 4);
    Cut(b[2], b[2] / 64, xs[3], n2, v, 64);
    Assemble(Bits(xs[0], v), Bits(b[0] % 4, n2), Bits(b[1] / 16, n4),
      Bits(b[1] % 16, n4), Bits(b[2] / 64, n2), Bits(xs[3], v));
  }

  lemma Assemble(a: seq<Bit>, b: seq<Bit>, c: seq<Bit>, d: seq<Bit>, e: seq<Bit>, f: seq<Bit>)
    ensures (a + b) + (c + d) + (e + f) == a + (b + c) + (d + e) + f
  {
  }

  lemma {:induction false} StreamConcat(a: seq<nat>, b: seq<nat>, w: nat)
    ensures Stream(a + b, w) == Stream(a, w) + Stream(b, w)
  {
    if a == [] {
      assert a + b == b;
    } else {
      assert (a + b)[0] == a[0] && (a + b)[1..] == a[1..] + b;
      StreamConcat(a[1..], b, w);
    }
  }

  lemma StreamOne(x: nat, w: nat)
    ensures Stream([x], w) == Bits(x, w)
  {
  }

  lemma StreamThree(b: seq<nat>, w: nat)
    requires |b| == 3
    ensures Stream(b, w) == Bits(b[0], w) + Bits(b[1], w) + Bits(b[2], w)
  {
    assert b == [b[0]] + [b[1]] + [b[2]];
    StreamConcat([b[0]] + [b[1]], [b[2]], w);
    StreamConcat([b[0]], [b[1]], w);
    StreamOne(b[0], w);
    StreamOne(b[1], w);
    StreamOne(b[2], w);
  }

  lemma TripleBits(b: seq<Byte>, xs: seq<Six>, w: nat, v: nat)
    requires w == 8 && v == 6 && |b| == 3 && (xs == Group(b) || (|xs| == 4 && b == Ungroup(xs)))
    ensures Stream(b, w) == Stream(xs, v)
  {
    GroupParts(b, xs, w, v, 2, 4);
    StreamThree(b, w);
    StreamThree(xs[..3], v);
    assert xs == xs[..3] + [xs[3]];
    StreamConcat(xs[..3], [xs[3]], v);
    StreamOne(xs[3], v);
  }

  /** A short group is a full one without the sextets or bytes that fill it up. */
  lemma ShortGroup(b: seq<Byte>, fill: seq<Byte>, xs: seq<Six>, rest: seq<Six>, w: nat, v: nat)
    requires w == 8 && v == 6 && |b + fill| == 3 && |xs + rest| == 4
    requires xs + rest == Group(b + fill) || b + fill == Ungroup(xs + rest)
    ensures Stream(b, w) + Stream(fill, w) == Stream(xs, v) + Stream(rest, v)
  {
    TripleBits(b + fill, xs + rest, w, v);
    StreamConcat(b, fill, w);
    StreamConcat(xs, rest, v);
  }

  lemma Overlap(a: seq<Bit>, c: seq<Bit>, b: seq<Bit>, d: seq<Bit>)
    requires a + c == b + d && |a| <= |b|
    ensures a <= b && b == a + c[..|b| - |a|]
  {
    assert (a + c)[..|a|] == a && (b + d)[..|a|] == b[..|a|];
    assert (a + c)[..|b|] == a + c[..|b| - |a|] && (b + d)[..|b|] == b;
  }

  lemma GroupBits(b: seq<Byte>, w: nat, v: nat)
    requires w == 8 && v == 6 && 1 <= |b| <= 3
    ensures Stream(Group(b), v) == Stream(b, w) + Zeros(v * (|b| + 1) - w * |b|)
  {
    var fill: seq<Byte> := if |b| == 1 then [0, 0] else if |b| == 2 then [0] else [];
    var rest: seq<Six> := if |b| == 1 then [0, 0] else if |b| == 2 then [0] else [];
    assert Group(b) + rest == Group(b + fill);
    ShortGroup(b, fill, Group(b), rest, w, v);
    ZeroStream(fill, w);
    Overlap(Stream(b, w), Stream(fill, w), Stream(Group(b), v), Stream(rest, v));
  }

  lemma {:induction false} ZeroStream(z: seq<nat>, w: nat)
    requires forall i :: 0 <= i < |z| ==> z[i] == 0
    ensures Stream(z, w) == Zeros(w * |z|)
  {
    if z != [] {
      ZeroStream(z[1..], w);
      ZeroBits(w);
      assert w * |z| == w + w * |z[1..]|;
    }
  }

  lemma UngroupBits(xs: seq<Six>, w: nat, v: nat)
    requires w == 8 && v == 6 && 2 <= |xs| <= 4
    ensures Stream(Ungroup(xs), w) <= Stream(xs, v)
  {
    var rest: seq<Six> := if |xs| == 2 then [0, 0] else if |xs| == 3 then [0] else [];
    var full := Ungroup(xs + rest);
    var fill := full[|xs| - 1..];
    assert full == Ungroup(xs) + fill;
    ShortGroup(Ungroup(xs), fill, xs, rest, w, v);
    Overlap(Stream(Ungroup(xs), w), Stream(fill, w), Stream(xs, v), Stream(rest, v));
  }

  // ---------------------------------------------------------------- the encoding is the standard's

  /** Zero bits in the last sextet. */
  function Filled(n: nat): nat { if n % 3 == 1 then 4 else if n % 3 == 2 then 2 else 0 }

  lemma {:induction false} SextetsBits(b: seq<Byte>, w: nat, v: nat)
    requires w == 8 && v == 6
    ensures Stream(Sextets(b), v) == Stream(b, w) + Zeros(Filled(|b|))
  {
    if |b| >= 3 {
      var head, tail := b[..3], b[3..];
      SextetsBits(tail, w, v);
      GroupBits(head, w, v);
      StreamConcat(Group(head), Sextets(tail), v);
      StreamConcat(head, tail, w);
      assert b == head + tail;
      FilledStep(|tail|);
      assert Zeros(0) == [];
      Regroup(Stream(head, w), Stream(tail, w), Zeros(Filled(|b|)));
    } else if b != [] {
      GroupBits(b, w, v);
    }
  }

  lemma FilledStep(n: nat)
    ensures Filled(n + 3) == Filled(n)
  {
  }

  lemma Regroup(a: seq<Bit>, b: seq<Bit>, c: seq<Bit>)
    ensures a + [] + (b + c) == a + b + c
  {
  }

  lemma {:induction false} SixesOfStream(xs: seq<Six>, v: nat)
    requires v == 6
    ensures Sixes(Stream(xs, v)) == xs
  {
    if xs != [] {
      SixesOfStream(xs[1..], v);
      var s := Stream(xs, v);
      assert s[..6] == Bits(xs[0], v) && s[6..] == Stream(xs[1..], v);
      assert Pow2(6) == 64;
      FromBitsBack(xs[0], v);
    }
  }

  lemma {:induction false} SixesFilled(s: seq<Bit>, n: nat, k: nat)
    requires n < 6 && |s| + n == 6 * k
    ensures Sixes(s + Zeros(n)) == Sixes(s)
  {
    var t := s + Zeros(n);
    if |s| < 6 {
      assert s != [] ==> t[..6] == t && t[6..] == [];
    } else {
      SixesFilled(s[6..], n, k - 1);
      assert t[..6] == s[..6] && t[6..] == s[6..] + Zeros(n);
    }
  }

  lemma SixesOfBytes(b: seq<Byte>, w: nat, v: nat)
    requires w == 8 && v == 6
    ensures Sixes(Stream(b, w)) == Sextets(b)
  {
    SextetsBits(b, w, v);
    SixesOfStream(Sextets(b), v);
    PaddingFills(|b|, |Sextets(b)|);
    SixesFilled(Stream(b, w), Filled(|b|), |Sextets(b)|);
  }

  /** `Encode` is the encoding of section 4 of RFC 4648. */
  lemma EncodeIsStandard(b: seq<Byte>)
    ensures Encode(b) == Rfc4648(b)
  {
    SixesOfBytes(b, 8, 6);
    PaddingFills(|b|, |Sextets(b)|);
  }

  lemma PaddingFills(n: nat, k: nat)
    requires k == (n * 4 + 2) / 3
    ensures 6 * k == 8 * n + Filled(n)
    ensures Padding(n) == if k % 4 == 2 then [PAD, PAD] else if k % 4 == 3 then [PAD] else []
  {
    FourThirds(n / 3, n % 3);
    Quads(n / 3, n % 3);
  }

  lemma FourThirds(q: nat, r: nat)
    requires r < 3
    ensures ((3 * q + r) * 4 + 2) / 3 == 4 * q + if r == 0 then 0 else r + 1
  {
  }

  lemma Quads(q: nat, r: nat)
    requires r < 3
    ensures (4 * q) % 4 == 0 && (4 * q + r + 1) % 4 == r + 1
  {
  }

  /** Whatever was read, the bytes are the whole octets of its bits. */
  lemma {:induction false} OctetsBits(xs: seq<Six>, w: nat, v: nat)
    requires w == 8 && v == 6
    ensures Stream(Octets(xs), w) <= Stream(xs, v) && v * |xs| - w * |Octets(xs)| < 8
  {
    if |xs| >= 4 {
      OctetsBits(xs[4..], w, v);
      UngroupBits(xs[..4], w, v);
      StreamConcat(Ungroup(xs[..4]), Octets(xs[4..]), w);
      StreamConcat(xs[..4], xs[4..], v);
      assert xs == xs[..4] + xs[4..];
    } else if |xs| >= 2 {
      UngroupBits(xs, w, v);
    }
  }

  // ---------------------------------------------------------------- round trip

  lemma {:induction false} OctetsBack(b: seq<Byte>)
    ensures Octets(Sextets(b)) == b
  {
    if |b| >= 3 {
      OctetsBack(b[3..]);
      var xs := Sextets(b);
      assert xs[..4] == Group(b[..3]) && xs[4..] == Sextets(b[3..]);
      GroupBack(b[..3]);
    } else if b != [] {
      GroupBack(b);
    }
  }

  lemma GroupBack(b: seq<Byte>)
    requires 1 <= |b| <= 3
    ensures Ungroup(Group(b)) == b
  {
    FirstBack(b[0], if |b| > 1 then b[1] else 0);
    if |b| > 1 { SecondBack(b[0], b[1], if |b| > 2 then b[2] else 0); }
    if |b| > 2 { ThirdBack(b[1], b[2]); }
  }

  lemma FirstBack(x: int, y: int)
    requires 0 <= x < 256 && 0 <= y < 256
    ensures x / 4 * 4 + (x % 4 * 16 + y / 16) / 16 == x
  {
  }

  lemma SecondBack(x: int, y: int, z: int)
    requires 0 <= x < 256 && 0 <= y < 256 && 0 <= z < 256
    ensures (x % 4 * 16 + y / 16) % 16 * 16 + (y % 16 * 4 + z / 64) / 4 == y
  {
  }

  lemma ThirdBack(y: int, z: int)
    requires 0 <= y < 256 && 0 <= z < 256
    ensures (y % 16 * 4 + z / 64) % 4 * 64 + z % 64 == z
  {
  }

  lemma {:induction false} SpelledAt(xs: seq<Six>, i: nat)
    requires i < |xs|
    ensures Spelled(xs)[i] == Alphabet(xs[i])
  {
    if i > 0 { SpelledAt(xs[1..], i - 1); }
  }

  lemma SpelledKinds(xs: seq<Six>, tail: seq<Byte>, ws: bool)
    requires tail in {[], [PAD], [PAD, PAD]}
    ensures var ks := Kinds(Spelled(xs) + tail, ws); ReadsAs(ks, xs) && |ks| == |xs| + |tail|
  {
    var ks := Kinds(Spelled(xs) + tail, ws);
    forall i | 0 <= i < |ks| ensures if i < |xs| then ks[i] == Take(xs[i]) else ks[i] == PadSign {
      KindsAt(Spelled(xs) + tail, ws, i);
      if i < |xs| { SpelledAt(xs, i); }
    }
  }

  /** The sextets `xs` and then at most two pads. */
  ghost predicate ReadsAs(ks: seq<Kind>, xs: seq<Six>) {
    && |xs| <= |ks| <= |xs| + 2
    && (forall i :: 0 <= i < |xs| ==> ks[i] == Take(xs[i]))
    && (forall i :: |xs| <= i < |ks| ==> ks[i] == PadSign)
  }

  lemma {:induction false} ReadSpelled(xs: seq<Six>, ks: seq<Kind>, i: nat, n: int)
    requires ReadsAs(ks, xs) && i <= |xs| && n > |xs| - i
    ensures ReadFrom(ks, i) == xs[i..] && StopsAt(ks, i, n) == |ks|
    decreases |xs| - i
  {
    if i < |xs| {
      ReadSpelled(xs, ks, i + 1, n - 1);
    }
  }

  /** Decoding an encoded text into room for the original gives the original and uses up the text. */
  lemma RoundTrip(b: seq<Byte>, ws: bool)
    ensures Fitting(Octets(Read(Encode(b), ws)), |b|) == b
    ensures Used(Encode(b), ws, Quota(|b|)) == |Encode(b)|
  {
    OctetsBack(b);
    SpelledKinds(Sextets(b), Padding(|b|), ws);
    ReadSpelled(Sextets(b), Kinds(Encode(b), ws), 0, Quota(|b|));
  }

  // ---------------------------------------------------------------- where reading ends

  /** Table 1 of RFC 4648. */
  const UPPER := "ABCDEFGHIJKLM" + "NOPQRSTUVWXYZ"
  const LOWER := "abcdefghijklm" + "nopqrstuvwxyz"
  const OTHERS := "0123456789+/"
  const TABLE := UPPER + LOWER + OTHERS

  lemma AlphabetIsTable(i: nat)
    requires i < 64
    ensures |TABLE| == 64 && Alphabet(i) == TABLE[i] as int
  {
    if i < 26 {
      assert UPPER[i] as int == 65 + i;
    } else if i < 52 {
      assert TABLE[i] == LOWER[i - 26];
      assert LOWER[i - 26] as int == 71 + i;
    } else {
      assert TABLE[i] == OTHERS[i - 52];
    }
  }

  ghost predicate Letter(c: Byte) { exists x: Six :: Alphabet(x) == c }

  lemma LetterExactly(c: Byte)
    ensures Letter(c) <==> Sextet(c) < 64
  {
    if Sextet(c) < 64 { AlphabetOf(c); }
  }

  /** The characters of `isspace` in the C locale. */
  lemma SpaceExactly(c: Byte)
    ensures IsSpace(c) <==> c as char in {' ', '\t', '\n', '\U{0B}', '\U{0C}', '\r'}
  {
  }

  /** The letters of a text, in order. */
  ghost function Letters(s: seq<Byte>): seq<Byte> {
    if s == [] then [] else (if Letter(s[0]) then [s[0]] else []) + Letters(s[1..])
  }

  /** Reading passes over letters, and over white space in that mode; any other character ends it. */
  ghost predicate Passes(c: Byte, ws: bool) { Letter(c) || (ws && IsSpace(c)) }

  ghost predicate EndsAt(s: seq<Byte>, ws: bool, m: nat) {
    && m <= |s| && (forall i | 0 <= i < m :: Passes(s[i], ws))
    && (m < |s| ==> !Passes(s[m], ws))
  }

  lemma KindExactly(c: Byte, ws: bool)
    ensures Letter(c) <==> KindOf(c, ws).Take?
    ensures Letter(c) ==> Alphabet(KindOf(c, ws).x) == c
    ensures !Letter(c) && Passes(c, ws) <==> KindOf(c, ws).Skip?
    ensures c == PAD <==> KindOf(c, ws).PadSign?
  {
    LetterExactly(c);
    if Sextet(c) < 64 { AlphabetOf(c); }
  }

  lemma LettersStep(s: seq<Byte>, i: nat, m: nat)
    requires i < m <= |s|
    ensures Letters(s[i..m]) == (if Letter(s[i]) then [s[i]] else []) + Letters(s[i + 1..m])
  {
    assert s[i..m][1..] == s[i + 1..m];
  }

  /** What is read, and how far, from place `i` on, when the first character that ends reading is at `m`. */
  lemma {:induction false} ReadUpTo(s: seq<Byte>, ws: bool, ks: seq<Kind>, i: nat, m: nat)
    requires ks == Kinds(s, ws) && EndsAt(s, ws, m) && i <= m
    ensures Spelled(ReadFrom(ks, i)) == Letters(s[i..m])
    decreases m - i
  {
    if i < |s| {
      KindsAt(s, ws, i);
      KindExactly(s[i], ws);
    }
    if i < m {
      ReadUpTo(s, ws, ks, i + 1, m);
      LettersStep(s, i, m);
    }
  }

  /** The letters before the first character that ends reading, and only these, are what is read. */
  lemma ReadExactly(s: seq<Byte>, ws: bool, m: nat)
    requires EndsAt(s, ws, m)
    ensures Spelled(Read(s, ws)) == Letters(s[..m])
  {
    ReadUpTo(s, ws, Kinds(s, ws), 0, m);
    assert s[0..m] == s[..m];
  }

  /** Pads at the end of reading that are counted with the text. */
  function Pads(s: seq<Byte>, m: nat): nat {
    if m < |s| && s[m] == PAD then (if m + 1 < |s| && s[m + 1] == PAD then 2 else 1) else 0
  }

  lemma {:induction false} UsedPast(s: seq<Byte>, ws: bool, ks: seq<Kind>, i: nat, m: nat, n: int)
    requires ks == Kinds(s, ws) && EndsAt(s, ws, m) && i <= m && n > |Letters(s[i..m])|
    ensures StopsAt(ks, i, n) == m + Pads(s, m)
    decreases m - i
  {
    if i < m {
      LettersStep(s, i, m);
      StopsStep(s, ws, ks, i, m, n);
      UsedPast(s, ws, ks, i + 1, m, if Letter(s[i]) then n - 1 else n);
    } else {
      StopsAtEnd(s, ws, ks, m, n);
    }
  }

  lemma StopsAtEnd(s: seq<Byte>, ws: bool, ks: seq<Kind>, m: nat, n: int)
    requires ks == Kinds(s, ws) && EndsAt(s, ws, m)
    ensures StopsAt(ks, m, n) == m + Pads(s, m)
  {
    if m < |s| {
      KindsAt(s, ws, m);
      KindExactly(s[m], ws);
    }
    if m + 1 < |s| {
      KindsAt(s, ws, m + 1);
      KindExactly(s[m + 1], ws);
    }
  }

  lemma {:induction false} UsedWithin(s: seq<Byte>, ws: bool, ks: seq<Kind>, i: nat, m: nat, n: int)
    requires ks == Kinds(s, ws) && EndsAt(s, ws, m) && i <= m && 0 < n <= |Letters(s[i..m])|
    ensures IsNth(s, i, StopsAt(ks, i, n), m, n)
    decreases m - i
  {
    assert i < m;
    LettersStep(s, i, m);
    StopsStep(s, ws, ks, i, m, n);
    var left := if Letter(s[i]) then n - 1 else n;
    if left == 0 {
      LettersStep(s, i, i + 1);
    } else {
      UsedWithin(s, ws, ks, i + 1, m, left);
      LettersStep(s, i, StopsAt(ks, i + 1, left));
    }
  }

  /** The `n`th letter from `i` on is the last before `u`. */
  ghost predicate IsNth(s: seq<Byte>, i: nat, u: nat, m: nat, n: int) {
    i < u <= m <= |s| && Letter(s[u - 1]) && |Letters(s[i..u])| == n
  }

  lemma StopsStep(s: seq<Byte>, ws: bool, ks: seq<Kind>, i: nat, m: nat, n: int)
    requires ks == Kinds(s, ws) && EndsAt(s, ws, m) && i < m
    ensures StopsAt(ks, i, n) ==
      if Letter(s[i]) && n == 1 then i + 1 else StopsAt(ks, i + 1, if Letter(s[i]) then n - 1 else n)
  {
    KindsAt(s, ws, i);
    KindExactly(s[i], ws);
  }

  /** How many characters are used up to read `n` letters: up to the `n`th, or, when there are fewer, up to the
      character that ends reading, and over one or two pads there. */
  lemma UsedExactly(s: seq<Byte>, ws: bool, m: nat, n: int)
    requires EndsAt(s, ws, m) && n > 0
    ensures n > |Letters(s[..m])| ==> Used(s, ws, n) == m + Pads(s, m)
    ensures n <= |Letters(s[..m])| ==>
      var u := Used(s, ws, n); 0 < u <= m && Letter(s[u - 1]) && |Letters(s[..u])| == n
  {
    assert s[0..m] == s[..m];
    if n > |Letters(s[..m])| {
      UsedPast(s, ws, Kinds(s, ws), 0, m, n);
    } else {
      UsedWithin(s, ws, Kinds(s, ws), 0, m, n);
      assert s[0..Used(s, ws, n)] == s[..Used(s, ws, n)];
    }
  }

  /** What follows a character that ends reading changes neither the bytes nor, unless it is a pad, the count. */
  lemma EndIgnored(a: seq<Byte>, c: Byte, b: seq<Byte>, ws: bool, n: int)
    requires !Passes(c, ws)
    ensures Read(a + [c] + b, ws) == Read(a, ws)
    ensures c != PAD ==> Used(a + [c] + b, ws, n) == Used(a, ws, n) <= |a|
  {
    KindExactly(c, ws);
    var ks := Kinds(a + [c] + b, ws);
    forall i | 0 <= i < |ks|
      ensures i < |a| ==> ks[i] == Kinds(a, ws)[i]
      ensures i == |a| ==> ks[i] == KindOf(c, ws)
    {
      KindsAt(a + [c] + b, ws, i);
      if i < |a| { KindsAt(a, ws, i); }
    }
    KindsIgnored(Kinds(a, ws), ks, 0, n);
  }

  lemma {:induction false} KindsIgnored(ka: seq<Kind>, ks: seq<Kind>, i: nat, n: int)
    requires i <= |ka| < |ks| && ka == ks[..|ka|] && (ks[|ka|].Stop? || ks[|ka|].PadSign?)
    ensures ReadFrom(ks, i) == ReadFrom(ka, i)
    ensures ks[|ka|].Stop? ==> StopsAt(ks, i, n) == StopsAt(ka, i, n) <= |ka|
    decreases |ka| - i
  {
    if i < |ka| {
      assert ks[i] == ka[i];
      KindsIgnored(ka, ks, i + 1, n);
      KindsIgnored(ka, ks, i + 1, n - 1);
      assert i + 1 < |ka| ==> ks[i + 1] == ka[i + 1];
    }
  }

  // ---------------------------------------------------------------- white space

  function NoSpaces(s: seq<Byte>): seq<Byte> {
    if s == [] then [] else (if IsSpace(s[0]) then [] else [s[0]]) + NoSpaces(s[1..])
  }

  /** In white-space mode only the other characters matter. */
  lemma {:induction false} SpacesIgnored(s: seq<Byte>)
    ensures Read(s, true) == Read(NoSpaces(s), false)
  {
    if s != [] {
      var t := NoSpaces(s);
      SpacesIgnored(s[1..]);
      ReadShift(Kinds(s, true), 1);
      assert Kinds(s, true)[1..] == Kinds(s[1..], true);
      if IsSpace(s[0]) {
        assert t == NoSpaces(s[1..]);
      } else {
        assert t[0] == s[0] && t[1..] == NoSpaces(s[1..]);
        assert Kinds(t, false)[1..] == Kinds(t[1..], false);
        ReadShift(Kinds(t, false), 1);
      }
    }
  }

  lemma {:induction false} ReadShift(ks: seq<Kind>, i: nat)
    requires 1 <= i <= |ks|
    ensures ReadFrom(ks, i) == ReadFrom(ks[1..], i - 1)
    decreases |ks| - i
  {
    if i < |ks| { ReadShift(ks, i + 1); }
  }

  // ---------------------------------------------------------------- appending groups

  lemma {:induction false} SextetsAppend(a: seq<Byte>, g: seq<Byte>)
    requires |a| % 3 == 0
    ensures Sextets(a + g) == Sextets(a) + Sextets(g)
  {
    if a == [] {
      assert a + g == g;
    } else {
      assert (a + g)[..3] == a[..3] && (a + g)[3..] == a[3..] + g;
      SextetsAppend(a[3..], g);
    }
  }

  lemma {:induction false} OctetsAppend(a: seq<Six>, g: seq<Six>)
    requires |a| % 4 == 0
    ensures Octets(a + g) == Octets(a) + Octets(g)
  {
    if a == [] {
      assert a + g == g;
    } else {
      assert (a + g)[..4] == a[..4] && (a + g)[4..] == a[4..] + g;
      OctetsAppend(a[4..], g);
    }
  }

  lemma {:induction false} SpelledConcat(a: seq<Six>, b: seq<Six>)
    ensures Spelled(a + b) == Spelled(a) + Spelled(b)
  {
    if a == [] {
      assert a + b == b;
    } else {
      assert (a + b)[0] == a[0] && (a + b)[1..] == a[1..] + b;
      SpelledConcat(a[1..], b);
    }
  }

  /** The next group's text follows the text of the groups before it. */
  lemma EncodeAppend(a: seq<Byte>, g: seq<Byte>)
    requires |a| % 3 == 0
    ensures Encode(a + g) == Encode(a) + Encode(g)
  {
    SextetsAppend(a, g);
    SpelledConcat(Sextets(a), Sextets(g));
    PaddingStep(|a|, |g|);
    PadsLast(Spelled(Sextets(a)), Spelled(Sextets(g)), Padding(|g|));
  }

  lemma PadsLast(x: seq<Byte>, y: seq<Byte>, p: seq<Byte>)
    ensures x + y + p == (x + []) + (y + p)
  {
  }

  lemma PaddingStep(n: nat, m: nat)
    requires n % 3 == 0
    ensures Padding(n) == [] && Padding(n + m) == Padding(m)
  {
    assert (n + m) % 3 == m % 3;
  }

  // ---------------------------------------------------------------- the routines

  function B64Size(size: nat): nat { size * 4 / 3 + 4 }
  function TextSize(n: nat): nat { (n + 2) / 3 * 4 }

  /** `B64Size` always has room for the text and its terminator. */
  lemma SizeSuffices(b: seq<Byte>)
    ensures |Encode(b)| + 1 <= B64Size(|b|)
  {
  }

  /** `String::b64` makes a string of `size * 4 / 3 + 1` characters for the text: enough exactly for whole groups. */
  lemma StringRoom(b: seq<Byte>)
    ensures |Encode(b)| <= |b| * 4 / 3 + 1 <==> |b| % 3 == 0
  {
    GroupRoom(|b| / 3, |b| % 3);
  }

  lemma GroupRoom(q: nat, r: nat)
    requires r < 3
    ensures (3 * q + r + 2) / 3 * 4 == 4 * q + (if r == 0 then 0 else 4) && (3 * q + r) * 4 / 3 == 4 * q + r * 4 / 3
  {
  }

  /** The bytes of a group as one 24-bit number, missing ones zero. */
  function Word24(b: seq<Byte>): nat
    requires 1 <= |b| <= 3
  {
    var x: int := b[0];
    var y: int := if |b| > 1 then b[1] else 0;
    var z: int := if |b| > 2 then b[2] else 0;
    x * 0x10000 + y * 0x100 + z
  }

  lemma Word24Sextets(x: int, y: int, z: int, bits: int)
    requires 0 <= x < 256 && 0 <= y < 256 && 0 <= z < 256 && bits == x * 0x10000 + y * 0x100 + z
    ensures bits / 0x40000 == x / 4 && bits / 0x1000 % 0x40 == x % 4 * 16 + y / 16
    ensures bits / 0x40 % 0x40 == y % 16 * 4 + z / 64 && bits % 0x40 == z % 64
  {
    assert bits / 0x1000 == x * 16 + y / 16;
    assert bits / 0x40 == x * 1024 + y * 4 + z / 64;
  }

  lemma GroupText(b: seq<Byte>, bits: int)
    requires 1 <= |b| <= 3 && bits == Word24(b)
    ensures 0 <= bits / 0x40000 < 64
    ensures Encode(b) == [Alphabet(bits / 0x40000), Alphabet(bits / 0x1000 % 0x40),
      if |b| == 1 then PAD else Alphabet(bits / 0x40 % 0x40), if |b| < 3 then PAD else Alphabet(bits % 0x40)]
  {
    var y: int := if |b| > 1 then b[1] else 0;
    var z: int := if |b| > 2 then b[2] else 0;
    Word24Sextets(b[0], y, z, bits);
    assert Sextets(b) == Group(b) by { if |b| == 3 { assert b[..3] == b && b[3..] == []; } }
    SpelledGroup(Group(b));
  }

  lemma SpelledGroup(xs: seq<Six>)
    requires 2 <= |xs| <= 4
    ensures Spelled(xs) == [Alphabet(xs[0]), Alphabet(xs[1])]
      + (if |xs| > 2 then [Alphabet(xs[2])] else []) + (if |xs| > 3 then [Alphabet(xs[3])] else [])
  {
    var t := xs[2..];
    assert Spelled(xs) == [Alphabet(xs[0])] + ([Alphabet(xs[1])] + Spelled(t)) by { assert xs[1..][1..] == t; }
    if |t| == 1 { assert t[1..] == []; }
    if |t| == 2 { assert t[1..][1..] == []; }
  }

  /** The four characters of a group. */
  method PutGroup(dest: array<Byte>, at: nat, bin: array<Byte>, from: nat, n: nat)
    requires 1 <= n <= 3 && from + n <= bin.Length && at + 4 <= dest.Length && dest != bin
    modifies dest
    ensures dest[at..at + 4] == Encode(bin[from..from + n])
    ensures forall k :: 0 <= k < at || at + 4 <= k < dest.Length ==> dest[k] == old(dest[k])
  {
    var byte: int := bin[from];
    var bits: int := byte * 0x10000;
    if n > 1 { byte := bin[from + 1]; bits := bits + byte * 0x100; }
    if n > 2 { bits := bits + bin[from + 2]; }
    GroupText(bin[from..from + n], bits);
    dest[at] := Alphabet(bits / 0x40000);
    dest[at + 1] := Alphabet(bits / 0x1000 % 0x40);
    dest[at + 2] := if n == 1 then PAD else Alphabet(bits / 0x40 % 0x40);
    dest[at + 3] := if n < 3 then PAD else Alphabet(bits % 0x40);
  }

  lemma EncodeNext(b: seq<Byte>, from: nat, n: nat, t: seq<Byte>, g: seq<Byte>)
    requires 1 <= n <= 3 && from % 3 == 0 && from + n <= |b|
    requires t == Encode(b[..from]) && g == Encode(b[from..from + n])
    ensures t + g == Encode(b[..from + n])
  {
    EncodeAppend(b[..from], b[from..from + n]);
    assert b[..from + n] == b[..from] + b[from..from + n];
  }

  /** Add the text of the next group to that of the whole groups before it. */
  method AppendGroup(dest: array<Byte>, at: nat, bin: array<Byte>, from: nat, n: nat, ghost q: nat)
    requires 1 <= n <= 3 && from == 3 * q && from + n <= bin.Length && at + 4 <= dest.Length && dest != bin
    requires dest[..at] == Encode(bin[..from])
    modifies dest
    ensures dest[..at + 4] == Encode(bin[..from + n])
    ensures forall k :: at + 4 <= k < dest.Length ==> dest[k] == old(dest[k])
  {
    ghost var b, t := bin[..], dest[..at];
    PutGroup(dest, at, bin, from, n);
    TextGrows(dest[..], at, t, dest[at..at + 4]);
    assert bin[..] == b && b[from..from + n] == bin[from..from + n];
    EncodeNext(b, from, n, t, dest[at..at + 4]);
  }

  lemma TextGrows(s: seq<Byte>, at: nat, t: seq<Byte>, g: seq<Byte>)
    requires at + 4 <= |s| && g == s[at..at + 4] && |t| == at && forall k :: 0 <= k < at ==> t[k] == s[k]
    ensures s[..at + 4] == t + g
  {
  }

  /** `String::b64encode`: as many whole groups as leave room for the terminator. */
  method Base64Encode(dest: array<Byte>, bin: array<Byte>, size: nat, dsize: nat) returns (count: nat)
    requires size <= bin.Length && dest != bin
    requires dest.Length >= if dsize == 0 then B64Size(size) else dsize
    modifies dest
    ensures count <= size && (count == size || count % 3 == 0)
    ensures TextSize(count) < if dsize == 0 then B64Size(size) else dsize
    ensures dest[..TextSize(count)] == Encode(bin[..count]) && dest[TextSize(count)] == NUL
    ensures count < size ==> TextSize(count) + 4 >= dsize > 0
    ensures forall k :: TextSize(count) < k < dest.Length ==> dest[k] == old(dest[k])
  {
    var room := if dsize == 0 then B64Size(size) else dsize;
    var at;
    ghost var q;
    count, at, q := EncodeGroups(dest, bin, size, room);
    TextSizeAt(q, count, at);
    dest[at] := NUL;
    assert dest[..at] == Encode(bin[..count]);
    DefaultRoom(size, count);
  }

  lemma DefaultRoom(size: nat, count: nat)
    ensures count % 3 == 0 && count < size ==> TextSize(count) + 4 < B64Size(size)
  {
  }

  /** The loop of `b64encode`: whole groups. */
  method EncodeTriples(dest: array<Byte>, bin: array<Byte>, size: nat, dsize: nat)
      returns (count: nat, at: nat, ghost q: nat)
    requires size <= bin.Length && dest != bin && 0 < dsize <= dest.Length
    modifies dest
    ensures count == 3 * q <= size && at == 4 * q < dsize && (size - count < 3 || dsize - at <= 4)
    ensures dest[..at] == Encode(bin[..count])
    ensures forall k :: at <= k < dest.Length ==> dest[k] == old(dest[k])
  {
    var room := dsize;
    count, at, q := 0, 0, 0;
    while size - count >= 3 && room > 4
      invariant count == 3 * q <= size && at == 4 * q && room == dsize - at && room > 0
      invariant dest[..at] == Encode(bin[..count])
      invariant forall k :: at <= k < dest.Length ==> dest[k] == old(dest[k])
    {
      AppendGroup(dest, at, bin, count, 3, q);
      at, count, room, q := at + 4, count + 3, room - 4, q + 1;
    }
  }

  /** The whole groups and then at most one shorter group. */
  method EncodeGroups(dest: array<Byte>, bin: array<Byte>, size: nat, dsize: nat)
      returns (count: nat, at: nat, ghost q: nat)
    requires size <= bin.Length && dest != bin && 0 < dsize <= dest.Length
    modifies dest
    ensures (count == 3 * q && at == 4 * q) || (3 * q < count < 3 * q + 3 && at == 4 * q + 4)
    ensures count <= size && (count == size || (count == 3 * q && at + 4 >= dsize))
    ensures at < dsize && dest[..at] == Encode(bin[..count])
    ensures forall k :: at <= k < dest.Length ==> dest[k] == old(dest[k])
  {
    count, at, q := EncodeTriples(dest, bin, size, dsize);
    if size > count && dsize - at > 4 {
      var n := size - count;
      AppendGroup(dest, at, bin, count, n, q);
      at, count := at + 4, count + n;
    }
  }

  lemma TextSizeAt(q: nat, count: nat, at: nat)
    requires (count == 3 * q && at == 4 * q) || (3 * q < count < 3 * q + 3 && at == 4 * q + 4)
    ensures TextSize(count) == at && (count == 3 * q ==> count % 3 == 0)
  {
  }

  /** The table the decoders build before they read. */
  method BuildDecoder() returns (table: seq<nat>)
    ensures |table| == 256 && forall c: Byte :: table[c] == Sextet(c)
  {
    var decoder := new nat[256](_ => 64);
    for i := 0 to 64
      invariant forall c: Byte :: decoder[c] == if Sextet(c) < i then Sextet(c) else 64
    {
      forall c: Byte | Sextet(c) == i ensures c == Alphabet(i) { AlphabetOf(c); }
      decoder[Alphabet(i)] := i;
    }
    table := decoder[..];
  }

  /** The accumulator `bits` after the sextets `p`: a leading 1 marks how many there are. */
  function Pack(p: seq<Six>): nat {
    if p == [] then 1 else Pack(p[..|p| - 1]) * 64 + p[|p| - 1]
  }

  predicate Flag(bits: nat, mask: nat)
    requires mask > 0
  {
    bits / mask % 2 == 1
  }

  lemma PackFlags(p: seq<Six>, bits: nat)
    requires |p| <= 4 && bits == Pack(p)
    ensures Flag(bits, 0x1000000) <==> |p| == 4
    ensures |p| < 4 ==> (Flag(bits, 0x40000) <==> |p| == 3)
    ensures |p| < 3 ==> (Flag(bits, 0x1000) <==> |p| == 2)
  {
    PackForm(p);
  }

  lemma PackForm(p: seq<Six>)
    requires |p| <= 4
    ensures |p| == 0 ==> Pack(p) == 1
    ensures |p| == 1 ==> Pack(p) == 0x40 + p[0] as int
    ensures |p| == 2 ==> Pack(p) == 0x1000 + p[0] as int * 0x40 + p[1]
    ensures |p| == 3 ==> Pack(p) == 0x40000 + p[0] as int * 0x1000 + p[1] as int * 0x40 + p[2]
    ensures |p| == 4 ==> Pack(p) == 0x1000000 + p[0] as int * 0x40000 + p[1] as int * 0x1000 + p[2] as int * 0x40 + p[3]
  {
    if p != [] { PackForm(p[..|p| - 1]); }
  }

  lemma PackBytes(p: seq<Six>, bits: nat)
    requires 2 <= |p| <= 4 && bits == Pack(p)
    ensures |p| == 4 ==> Ungroup(p) == [bits / 0x10000 % 0x100, bits / 0x100 % 0x100, bits % 0x100]
    ensures |p| == 3 ==> Ungroup(p) == [bits / 0x400 % 0x100, bits / 4 % 0x100]
    ensures |p| == 2 ==> Ungroup(p) == [bits / 0x10 % 0x100]
  {
    PackForm(p);
    if |p| == 4 {
      FourBytes(p[0], p[1], p[2], p[3], bits);
    } else if |p| == 3 {
      ThreeBytes(p[0], p[1], p[2], bits);
    } else {
      TwoBytes(p[0], p[1], bits);
    }
  }

  lemma FourBytes(x: int, y: int, z: int, t: int, bits: int)
    requires 0 <= x < 64 && 0 <= y < 64 && 0 <= z < 64 && 0 <= t < 64
    requires bits == 0x1000000 + x * 0x40000 + y * 0x1000 + z * 0x40 + t
    ensures bits / 0x10000 % 0x100 == x * 4 + y / 16
    ensures bits / 0x100 % 0x100 == y % 16 * 16 + z / 4
    ensures bits % 0x100 == z % 4 * 64 + t
  {
    UpperByte(x, y, z * 0x40 + t, bits);
    MiddleByte(x, y, z, t, bits);
    LowerByte(x * 0x400 + y * 0x10, z, t, bits);
  }

  lemma UpperByte(x: int, y: int, low: int, bits: int)
    requires 0 <= x < 64 && 0 <= y < 64 && 0 <= low < 0x1000
    requires bits == 0x1000000 + x * 0x40000 + y * 0x1000 + low
    ensures bits / 0x10000 % 0x100 == x * 4 + y / 16
  {
    assert bits / 0x10000 == 0x100 + x * 4 + y / 16;
  }

  lemma MiddleByte(x: int, y: int, z: int, t: int, bits: int)
    requires 0 <= x < 64 && 0 <= y < 64 && 0 <= z < 64 && 0 <= t < 64
    requires bits == 0x1000000 + x * 0x40000 + y * 0x1000 + z * 0x40 + t
    ensures bits / 0x100 % 0x100 == y % 16 * 16 + z / 4
  {
    SecondByte(bits, 0x100 + x * 4 + y / 16, y % 16 * 16 + z / 4, z % 4 * 0x40 + t);
  }

  lemma SecondByte(bits: int, high: int, middle: int, low: int)
    requires bits == high * 0x10000 + middle * 0x100 + low && 0 <= low < 0x100 && 0 <= middle < 0x100
    ensures bits / 0x100 % 0x100 == middle
  {
    assert bits / 0x100 == high * 0x100 + middle;
  }

  lemma LowerByte(high: int, z: int, t: int, bits: int)
    requires 0 <= high && 0 <= z < 64 && 0 <= t < 64 && bits == 0x1000000 + high * 0x100 + z * 0x40 + t
    ensures bits % 0x100 == z % 4 * 64 + t
  {
    assert bits == 0x100 * (0x10000 + high + z / 4) + z % 4 * 64 + t;
  }

  lemma TwoBytes(x: int, y: int, bits: int)
    requires 0 <= x < 64 && 0 <= y < 64 && bits == 0x1000 + x * 0x40 + y
    ensures bits / 0x10 % 0x100 == x * 4 + y / 16
  {
    assert bits / 0x10 == 0x100 + x * 4 + y / 16;
  }

  lemma ThreeBytes(x: int, y: int, z: int, bits: int)
    requires 0 <= x < 64 && 0 <= y < 64 && 0 <= z < 64
    requires bits == 0x40000 + x * 0x1000 + y * 0x40 + z
    ensures bits / 0x400 % 0x100 == x * 4 + y / 16
    ensures bits / 4 % 0x100 == y % 16 * 16 + z / 4
  {
    assert bits / 0x400 == 0x100 + x * 4 + y / 16;
    assert bits / 4 == 0x10000 + x * 0x400 + y * 0x10 + z / 4;
  }

  /** What one more sextet does to the accumulator and to the bytes still to come. */
  lemma PackPush(p: seq<Six>, x: Six)
    requires |p| < 4
    ensures Pack(p + [x]) == Pack(p) * 64 + x
    ensures Flag(Pack(p + [x]), 0x1000000) <==> |p| == 3
  {
    var q := p + [x];
    assert q[..|p|] == p;
    PackFlags(q, Pack(q));
  }

  /** The tests the decoders put to the character at `i`. */
  method LookAt(src: array<Byte>, i: nat, decoder: seq<nat>, ws: bool, ghost ks: seq<Kind>) returns (k: Kind)
    requires Terminated(src, ks, ws) && i < |ks|
    requires |decoder| == 256 && forall c: Byte :: decoder[c] == Sextet(c)
    ensures k == ks[i]
  {
    var c := src[i];
    assert c == src[..|ks|][i];
    KindsAt(src[..|ks|], ws, i);
    if IsSpace(c) {
      return if ws then Skip else Stop;
    }
    if c == PAD { return PadSign; }
    if decoder[c] == 64 { return Stop; }
    return Take(decoder[c]);
  }

  /** The characters of `src` before its NUL are of the kinds `ks`. */
  ghost predicate Terminated(src: array<Byte>, ks: seq<Kind>, ws: bool)
    reads src
  {
    |ks| < src.Length && src[|ks|] == NUL && NUL !in src[..|ks|] && ks == Kinds(src[..|ks|], ws)
  }

  /** How many sextets are looked at with `room` bytes left: the group for which there is no room is read
      to its end. */
  function Quota(room: nat): (n: nat)
    ensures n == 4 * (room / 3 + 1)
  {
    if room < 3 then 4 else 4 + Quota(room - 3)
  }

  method PutTriple(dest: array<Byte>, at: nat, bits: nat,
      ghost p: seq<Six>, ghost orig: seq<Byte>, ghost out: seq<Byte>)
    requires at + 3 <= dest.Length && |p| == 4 && bits == Pack(p)
    requires at == |out| && Wrote(dest[..], orig, out)
    modifies dest
    ensures Wrote(dest[..], orig, out + Ungroup(p))
  {
    PackBytes(p, bits);
    dest[at] := bits / 0x10000 % 0x100;
    dest[at + 1] := bits / 0x100 % 0x100;
    dest[at + 2] := bits % 0x100;
  }

  /** The sextets of complete groups, and those after them. */
  ghost function Whole(xs: seq<Six>): (w: seq<Six>)
    ensures |w| % 4 == 0 && |w| <= |xs| < |w| + 4 && w == xs[..|w|]
  {
    xs[..|xs| / 4 * 4]
  }

  ghost function Held(xs: seq<Six>): seq<Six> { xs[|Whole(xs)|..] }

  lemma WholeStep(xs: seq<Six>, x: Six)
    ensures |Held(xs)| == 3 ==> Whole(xs + [x]) == Whole(xs) + (Held(xs) + [x]) && Held(xs + [x]) == []
    ensures |Held(xs)| == 3 ==> Octets(Whole(xs + [x])) == Octets(Whole(xs)) + Ungroup(Held(xs) + [x])
    ensures |Held(xs)| < 3 ==> Whole(xs + [x]) == Whole(xs) && Held(xs + [x]) == Held(xs) + [x]
  {
    if |Held(xs)| == 3 {
      var q := Held(xs) + [x];
      assert Whole(xs) + q == xs + [x];
      OctetsAppend(Whole(xs), q);
      assert q[..4] == q && q[4..] == [];
    }
  }

  /** One more sextet after `done`: a fourth one completes a triple, for which there may be no room. */
  method Absorb(dest: array<Byte>, at: nat, room: nat, bits: nat, x: Six,
      ghost done: seq<Six>, ghost orig: seq<Byte>, ghost out: seq<Byte>)
      returns (full: bool, at': nat, room': nat, bits': nat, ghost out': seq<Byte>)
    requires at + room <= dest.Length && at == |out| && bits == Pack(Held(done))
    requires out == Octets(Whole(done)) && Wrote(dest[..], orig, out)
    modifies dest
    ensures at' + room' == at + room && at' == |out'| && Wrote(dest[..], orig, out')
    ensures (full <==> |done| + 1 == Quota(at + room)) && (full ==> |Held(done)| == 3 && room < 3)
    ensures full ==> out' == out && bits' == 1
    ensures !full ==> out' == Octets(Whole(done + [x])) && bits' == Pack(Held(done + [x]))
  {
    PackPush(Held(done), x);
    WholeStep(done, x);
    QuotaLeft(at + room, at, |done|);
    at', room', bits', full, out' := at, room, bits * 64 + x, false, out;
    if Flag(bits', 0x1000000) {
      if room < 3 { return true, at, room, 1, out; }
      PutTriple(dest, at, bits', Held(done) + [x], orig, out);
      at', room', bits', out' := at + 3, room - 3, 1, out + Ungroup(Held(done) + [x]);
    }
  }

  // The characters before place `i`, none of which ends the reading, and the sextets among them.
  ghost predicate Going(ks: seq<Kind>, i: nat)
    requires i <= |ks|
  {
    i == 0 || (Going(ks, i - 1) && (ks[i - 1].Skip? || ks[i - 1].Take?))
  }

  ghost function Seen(ks: seq<Kind>, i: nat): seq<Six>
    requires i <= |ks|
  {
    if i == 0 then []
    else if ks[i - 1].Take? then Seen(ks, i - 1) + [ks[i - 1].x]
    else Seen(ks, i - 1)
  }

  lemma {:induction false} SeenThenRest(ks: seq<Kind>, i: nat, n: int)
    requires i <= |ks| && Going(ks, i) && |Seen(ks, i)| < n
    ensures ReadFrom(ks, 0) == Seen(ks, i) + ReadFrom(ks, i)
    ensures StopsAt(ks, 0, n) == StopsAt(ks, i, n - |Seen(ks, i)|)
  {
    if i > 0 {
      SeenThenRest(ks, i - 1, n);
    }
  }

  /** What the reading came to at its end. */
  lemma Ended(ks: seq<Kind>, i: nat, n: int)
    requires i <= |ks| && Going(ks, i) && |Seen(ks, i)| < n
    ensures i == |ks| || ks[i] in {PadSign, Stop} ==> ReadFrom(ks, 0) == Seen(ks, i)
    ensures i == |ks| || ks[i].Stop? ==> StopsAt(ks, 0, n) == i
    ensures i < |ks| && ks[i].PadSign? ==> StopsAt(ks, 0, n) == i + PadSigns(ks, i)
    ensures i < |ks| && ks[i].Take? ==> Seen(ks, i) < ReadFrom(ks, 0)
    ensures i < |ks| && ks[i].Take? && |Seen(ks, i)| + 1 == n ==> StopsAt(ks, 0, n) == i + 1
  {
    SeenThenRest(ks, i, n);
  }

  lemma QuotaLeft(size: nat, at: nat, k: nat)
    requires at == k / 4 * 3
    ensures Quota(size) - k == 1 <==> k % 4 == 3 && 0 <= size - at < 3
  {
  }

  lemma WholeAndHeld(xs: seq<Six>)
    ensures Octets(xs) == Octets(Whole(xs)) + Octets(Held(xs))
  {
    OctetsAppend(Whole(xs), Held(xs));
    assert Whole(xs) + Held(xs) == xs;
  }

  /** `String::b64count`: the number of bytes the text stands for. */
  method Base64Count(src: array<Byte>, ws: bool) returns (count: nat)
    requires NUL in src[..]
    ensures count == |Octets(Read(src[..StrLen(src[..])], ws))|
  {
    ghost var ks := Kinds(src[..StrLen(src[..])], ws);
    ghost var done;
    var bits;
    count, bits, done := CountTriples(src, ws, ks);
    WholeAndHeld(done);
    PackFlags(Held(done), bits);
    if Flag(bits, 0x40000) { count := count + 2; } else if Flag(bits, 0x1000) { count := count + 1; }
  }

  /** One character of `b64count`: unless it ends the reading, `done` grows with what it stands for. */
  method CountOne(kind: Kind, count: nat, bits: nat, ghost ks: seq<Kind>, ghost i: nat, ghost done: seq<Six>)
      returns (ended: bool, count': nat, bits': nat, ghost done': seq<Six>)
    requires i < |ks| && kind == ks[i] && Going(ks, i) && done == Seen(ks, i)
    requires count == |Octets(Whole(done))| && bits == Pack(Held(done))
    ensures count' == |Octets(Whole(done'))| && bits' == Pack(Held(done'))
    ensures ended ==> ks[i] in {PadSign, Stop} && done' == done
    ensures !ended ==> Going(ks, i + 1) && done' == Seen(ks, i + 1)
  {
    ended, count', bits', done' := false, count, bits, done;
    match kind
    case Skip =>
    case Take(x) =>
      PackPush(Held(done), x);
      WholeStep(done, x);
      bits', done' := bits * 64 + x, done + [x];
      if Flag(bits', 0x1000000) { count', bits' := count + 3, 1; }
    case _ => ended := true;
  }

  method CountTriples(src: array<Byte>, ws: bool, ghost ks: seq<Kind>)
      returns (count: nat, bits: nat, ghost done: seq<Six>)
    requires Terminated(src, ks, ws)
    ensures done == ReadFrom(ks, 0) && count == |Octets(Whole(done))| && bits == Pack(Held(done))
  {
    var decoder := BuildDecoder();
    var i: nat, ended := 0, false;
    count, bits, done := 0, 1, [];
    while src[i] != NUL
      invariant i <= |ks| && Going(ks, i) && done == Seen(ks, i)
      invariant count == |Octets(Whole(done))| && bits == Pack(Held(done))
      decreases |ks| - i
    {
      var kind := LookAt(src, i, decoder, ws, ks);
      ended, count, bits, done := CountOne(kind, count, bits, ks, i, done);
      if ended { break; }
      i := i + 1;
    }
    Ended(ks, i, |done| + 1);
  }

  /** A pad, and a second one right after it. */
  method CountPads(src: array<Byte>, i: nat, ws: bool, ghost ks: seq<Kind>) returns (n: nat)
    requires Terminated(src, ks, ws) && i < |ks|
    ensures n == PadSigns(ks, i)
  {
    n := 1;
    if i + 1 < |ks| { KindsAt(src[..|ks|], ws, i + 1); }
    if src[i + 1] == PAD { n := n + 1; }
  }

  /** The loop of `String::b64decode`, up to place `i`: the text ends there or, when `full`, one sextet too
      many stands there. */
  method DecodeTriples(dest: array<Byte>, src: array<Byte>, size: nat, ws: bool, ghost ks: seq<Kind>)
      returns (i: nat, count: nat, at: nat, bits: nat, full: bool, ghost done: seq<Six>, ghost out: seq<Byte>)
    requires size <= dest.Length && dest != src && Terminated(src, ks, ws)
    modifies dest
    ensures i <= |ks| && Going(ks, i) && done == Seen(ks, i) && |done| < Quota(size)
    ensures out == Octets(Whole(done)) && at == |out| <= size && Wrote(dest[..], old(dest[..]), out)
    ensures !full ==> bits == Pack(Held(done)) && (i == |ks| || ks[i] in {PadSign, Stop})
    ensures full ==> bits == 1 && |Held(done)| == 3 && i < |ks| && ks[i].Take? && size < at + 3
    ensures count == if full then i + 1 else if i < |ks| && ks[i].PadSign? then i + PadSigns(ks, i) else i
  {
    var decoder := BuildDecoder();
    ghost var orig := dest[..];
    var room := size;
    i, count, at, bits, full, done, out := 0, 0, 0, 1, false, [], [];
    while src[i] != NUL
      invariant i <= |ks| && Going(ks, i) && done == Seen(ks, i) && |done| < Quota(size)
      invariant count == i && at + room == size && !full
      invariant at == |out| && bits == Pack(Held(done)) && out == Octets(Whole(done))
      invariant Wrote(dest[..], orig, out)
      decreases |ks| - i
    {
      var kind := LookAt(src, i, decoder, ws, ks);
      match kind {
        case Skip => count := count + 1;
        case Take(x) =>
          count := count + 1;
          full, at, room, bits, out := Absorb(dest, at, room, bits, x, done, orig, out);
          if full { break; }
          done := done + [x];
        case PadSign =>
          var pads := CountPads(src, i, ws, ks);
          count := count + pads;
          break;
        case Stop => break;
      }
      i := i + 1;
    }
  }

  /** `String::b64decode`: the bytes the text stands for, or the whole triples among them that fit. */
  method Base64Decode(dest: array<Byte>, src: array<Byte>, size: nat, ws: bool) returns (count: nat)
    requires NUL in src[..] && size <= dest.Length && dest != src
    modifies dest
    ensures Wrote(dest[..], old(dest[..]), Fitting(Octets(Read(src[..StrLen(src[..])], ws)), size))
    ensures count == Used(src[..StrLen(src[..])], ws, Quota(size))
  {
    ghost var ks := Kinds(src[..StrLen(src[..])], ws);
    ghost var orig := dest[..];
    var i, at, bits, full;
    ghost var done, out;
    i, count, at, bits, full, done, out := DecodeTriples(dest, src, size, ws, ks);
    Ended(ks, i, Quota(size));
    QuotaLeft(size, at, |done|);
    ghost var p: seq<Six> := if full then [] else Held(done);
    FittingWhole(done, ReadFrom(ks, 0), size);
    assert Fitting(Octets(ReadFrom(ks, 0)), size) == if |Octets(p)| <= size - at then out + Octets(p) else out;
    PutTail(dest, at, size - at, bits, p, orig, out);
  }

  /** Binary data from a text, as `typeref<const uint8_t *>::b64` loads it: what `b64count` allots is exactly
      what `b64decode` fills. */
  method Load(src: array<Byte>, ws: bool) returns (data: array<Byte>)
    requires NUL in src[..]
    ensures fresh(data) && data[..] == Octets(Read(src[..StrLen(src[..])], ws))
  {
    var size := Base64Count(src, ws);
    data := new Byte[size](_ => NUL);
    if size == 0 { return; }
    var used := Base64Decode(data, src, size, ws);
  }

  /** The last one or two bytes, if there is room for them. */
  method PutTail(dest: array<Byte>, at: nat, size: nat, bits: nat,
      ghost p: seq<Six>, ghost orig: seq<Byte>, ghost out: seq<Byte>)
    requires at + size <= dest.Length && |p| < 4 && bits == Pack(p)
    requires at == |out| && Wrote(dest[..], orig, out)
    modifies dest
    ensures Wrote(dest[..], orig, if |Octets(p)| <= size then out + Octets(p) else out)
  {
    PackFlags(p, bits);
    if |p| >= 2 { PackBytes(p, bits); }
    if Flag(bits, 0x40000) {
      if size >= 2 {
        dest[at] := bits / 0x400 % 0x100;
        dest[at + 1] := bits / 4 % 0x100;
      }
    } else if Flag(bits, 0x1000) && size > 0 {
      dest[at] := bits / 0x10 % 0x100;
    }
  }

  /** The whole triples written, with the tail if it fits, are what fits. */
  lemma FittingWhole(done: seq<Six>, all: seq<Six>, size: nat)
    requires done <= all && |Octets(Whole(done))| <= size
    ensures done == all && |Octets(Whole(done))| + |Octets(Held(done))| <= size ==>
      Fitting(Octets(all), size) == Octets(Whole(done)) + Octets(Held(done))
    ensures done == all && |Octets(Whole(done))| + |Octets(Held(done))| > size ==>
      Fitting(Octets(all), size) == Octets(Whole(done))
    ensures done < all && |Held(done)| == 3 && size < |Octets(Whole(done))| + 3 ==>
      Fitting(Octets(all), size) == Octets(Whole(done))
  {
    var w := Whole(done);
    assert all == w + all[|w|..];
    OctetsAppend(w, all[|w|..]);
    var k := |done| / 4;
    ThreeFourths(k);
    assert |w| == 4 * k;
    FittingAt(Octets(w), Octets(all[|w|..]), size, k);
  }

  lemma ThreeFourths(k: nat)
    ensures 4 * k * 3 / 4 == 3 * k
  {
  }

  lemma FittingAt(a: seq<Byte>, b: seq<Byte>, size: nat, k: nat)
    requires |a| == 3 * k && |a| <= size
    ensures |a| + |b| <= size ==> Fitting(a + b, size) == a + b
    ensures size < |a| + |b| && size < |a| + 3 ==> Fitting(a + b, size) == a
  {
    if size < |a| + |b| && size < |a| + 3 { assert size / 3 * 3 == |a|; }
  }
}
