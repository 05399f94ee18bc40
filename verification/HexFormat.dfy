/** Hex dumps laid out by a format: `hexsize`, `hexdump` and `hexpack` of corelib/string.cpp. */
module HexFormat {
  import opened Bytes
  import opened Sequences
  import Numbers

  const WORD := 0x1_0000_0000  // unsigned int
  const LONG_MAX := 0x7fff_ffff_ffff_ffff

  // ---------------------------------------------------------------- formats

  /** A character of the text, or a field of so many bytes. */
  datatype Item = Lit(c: Byte) | Field(n: nat)

  /** How many digits a text begins with. */
  function Run(s: seq<Byte>): (n: nat)
    ensures n <= |s| && (s != [] && IsDigit(s[0]) ==> n > 0)
  {
    if s == [] || !IsDigit(s[0]) then 0 else 1 + Run(s[1..])
  }

  /** `(unsigned)strtol(s, &ep, 10)` at a digit. */
  function Skip(s: seq<Byte>): (n: nat)
    ensures n < WORD
  {
    var v := Numbers.Leading(s, 0);
    if v < 0 then 0 else if v > LONG_MAX then LONG_MAX % WORD else v % WORD
  }

  function Items(s: seq<Byte>): (t: seq<Item>)
    ensures forall i :: 0 <= i < |t| && t[i].Field? ==> t[i].n < WORD
  {
    if s == [] then []
    else if IsDigit(s[0]) then [Field(Skip(s))] + Items(s[Run(s)..])
    else [Lit(s[0])] + Items(s[1..])
  }

  /** Bytes of data, and characters of text, that a format stands for. */
  function Need(t: seq<Item>): nat {
    if t == [] then 0 else (if t[0].Field? then t[0].n else 0) + Need(t[1..])
  }

  function Length(t: seq<Item>): nat {
    if t == [] then 0 else (if t[0].Field? then 2 * t[0].n else 1) + Length(t[1..])
  }

  /** The length as the code adds it up: twice a field's size in 32 bits. */
  function Counted(t: seq<Item>): nat {
    if t == [] then 0 else (if t[0].Field? then 2 * t[0].n % WORD else 1) + Counted(t[1..])
  }

  /** The count is the length exactly when every field is below 2^31. */
  lemma {:induction false} CountedExactly(t: seq<Item>)
    requires forall i :: 0 <= i < |t| && t[i].Field? ==> t[i].n < WORD
    ensures Counted(t) <= Length(t)
    ensures Counted(t) == Length(t) <==> forall i :: 0 <= i < |t| && t[i].Field? ==> t[i].n < WORD / 2
  {
    if t != [] {
      CountedExactly(t[1..]);
      assert forall i :: 0 < i < |t| ==> t[i] == t[1..][i - 1];
    }
  }

  /** The format "2147483648", a field of 2^31 bytes, counts for nothing. */
  lemma CountWraps(format: seq<Byte>)
    requires format == [50, 49, 52, 55, 52, 56, 51, 54, 52, 56]
    ensures Items(format) == [Field(WORD / 2)]
    ensures Counted(Items(format)) == 0 && Length(Items(format)) == WORD
  {
    DigitsOnly(format);
    FirstDigits(format);
    assert format[10..] == [];
    assert [Field(WORD / 2)][1..] == [];
  }

  lemma {:induction false} DigitsOnly(s: seq<Byte>)
    requires forall i :: 0 <= i < |s| ==> IsDigit(s[i])
    ensures Run(s) == |s|
  {
    if s != [] { DigitsOnly(s[1..]); }
  }

  lemma FirstDigits(s: seq<Byte>)
    requires s == [50, 49, 52, 55, 52, 56, 51, 54, 52, 56]
    ensures Numbers.Leading(s, 0) == WORD / 2
  {
    FiveDigits(s, 0, 0);
    FiveDigits(s, 5, 21474);
    assert s[0..] == s && s[10..] == [];
  }

  lemma FiveDigits(s: seq<Byte>, i: nat, v: int)
    requires i + 5 <= |s| && forall j :: i <= j < i + 5 ==> IsDigit(s[j])
    ensures Numbers.Leading(s[i..], v) == Numbers.Leading(s[i + 5..], v * 100000
      + (s[i] - ZERO) * 10000 + (s[i + 1] - ZERO) * 1000 + (s[i + 2] - ZERO) * 100
      + (s[i + 3] - ZERO) * 10 + (s[i + 4] - ZERO))
  {
    var a := v * 10 + (s[i] - ZERO);
    var b := a * 10 + (s[i + 1] - ZERO);
    var c := b * 10 + (s[i + 2] - ZERO);
    var d := c * 10 + (s[i + 3] - ZERO);
    DigitTaken(s, i, v);
    DigitTaken(s, i + 1, a);
    DigitTaken(s, i + 2, b);
    DigitTaken(s, i + 3, c);
    DigitTaken(s, i + 4, d);
  }

  lemma DigitTaken(s: seq<Byte>, i: nat, value: int)
    requires i < |s| && IsDigit(s[i])
    ensures Numbers.Leading(s[i..], value) == Numbers.Leading(s[i + 1..], value * 10 + (s[i] - ZERO))
  {
    assert s[i..][1..] == s[i + 1..];
  }

  // ---------------------------------------------------------------- formats written and read

  /** A number in decimal. */
  function Decimal(n: nat): (s: seq<Byte>)
    ensures s != [] && forall i :: 0 <= i < |s| ==> IsDigit(s[i])
  {
    if n < 10 then [ZERO + n] else Decimal(n / 10) + [ZERO + n % 10]
  }

  /** The format that describes the items. */
  function Written(t: seq<Item>): seq<Byte> {
    if t == [] then [] else (if t[0].Field? then Decimal(t[0].n) else [t[0].c]) + Written(t[1..])
  }

  /** Items that a format can keep apart: no digits between the fields, and no field right after another. */
  ghost predicate Separate(t: seq<Item>) {
    && (forall i :: 0 <= i < |t| ==> if t[i].Field? then t[i].n < WORD else !IsDigit(t[i].c))
    && forall i :: 0 < i < |t| ==> t[i].Lit? || t[i - 1].Lit?
  }

  lemma {:induction false} RunOn(a: seq<Byte>, b: seq<Byte>)
    requires forall i | 0 <= i < |a| :: IsDigit(a[i])
    ensures Run(a + b) == |a| + Run(b)
  {
    if a == [] {
      assert a + b == b;
    } else {
      assert (a + b)[0] == a[0] && (a + b)[1..] == a[1..] + b;
      RunOn(a[1..], b);
    }
  }

  lemma {:induction false} DecimalRead(n: nat)
    ensures Numbers.Leading(Decimal(n), 0) == n
  {
    if n >= 10 {
      DecimalRead(n / 10);
      Numbers.LeadingOn(Decimal(n / 10), [ZERO + n % 10], 0);
      assert [ZERO + n % 10][1..] == [];
    } else {
      assert [ZERO + n][1..] == [];
    }
  }

  /** A format that describes separate items is read as these items. */
  lemma {:induction false} ItemsBack(t: seq<Item>)
    requires Separate(t)
    ensures Items(Written(t)) == t
  {
    if t != [] {
      ItemsBack(t[1..]);
      assert t == [t[0]] + t[1..];
      if t[0].Field? { FieldRead(t[0].n, t[1..]); } else { LitRead(t[0].c, Written(t[1..])); }
    }
  }

  lemma LitRead(c: Byte, rest: seq<Byte>)
    requires !IsDigit(c)
    ensures Items([c] + rest) == [Lit(c)] + Items(rest)
  {
    assert ([c] + rest)[1..] == rest;
  }

  lemma FieldRead(n: nat, t: seq<Item>)
    requires n < WORD && (t != [] ==> t[0].Lit? && !IsDigit(t[0].c))
    ensures Items(Decimal(n) + Written(t)) == [Field(n)] + Items(Written(t))
  {
    var d, rest := Decimal(n), Written(t);
    Numbers.LeadingOn(d, rest, 0);
    RunOn(d, rest);
    DecimalRead(n);
    NoDigits(rest, n);
    assert (d + rest)[0] == d[0] && (d + rest)[|d|..] == rest;
    FirstField(d + rest, |d|, n);
  }

  /** Any number: beyond a `long` it counts as the largest one, and of that only the lower 32 bits are kept. */
  lemma NumberRead(n: nat)
    ensures Items(Decimal(n)) == [Field(if n > LONG_MAX then WORD - 1 else n % WORD)]
  {
    var d := Decimal(n);
    DecimalRead(n);
    RunOn(d, []);
    assert d + [] == d && d[|d|..] == [];
  }

  lemma NoDigits(s: seq<Byte>, n: int)
    requires s != [] ==> !IsDigit(s[0])
    ensures Numbers.Leading(s, n) == n && Run(s) == 0
  {
  }

  lemma FirstField(s: seq<Byte>, k: nat, n: nat)
    requires s != [] && IsDigit(s[0]) && k == Run(s) && Numbers.Leading(s, 0) == n < WORD
    ensures k <= |s| && Items(s) == [Field(n)] + Items(s[k..])
  {
    assert Skip(s) == n;
  }

  // ---------------------------------------------------------------- text

  /** A digit of "%02x". */
  function HexDigit(d: nat): (c: Byte)
    requires d < 16
  {
    if d < 10 then 48 + d else 87 + d
  }

  /** `hexcode`: upper and lower case alike; -1 for anything else. */
  function HexCode(c: Byte): (d: int)
    ensures -1 <= d < 16
  {
    if 48 <= c <= 57 then c - 48 else if 65 <= c <= 70 then c - 55 else if 97 <= c <= 102 then c - 87 else -1
  }

  const DIGITS := "0123456789abcdef"
  const CAPITALS := "0123456789ABCDEF"

  /** Digits are written in lower case, and read in both. */
  lemma DigitsExactly(d: nat)
    requires d < 16
    ensures HexDigit(d) == DIGITS[d] as int && HexCode(DIGITS[d] as int) == HexCode(CAPITALS[d] as int) == d
  {
  }

  /** Nothing else is a digit. */
  lemma OnlyDigits(c: Byte)
    ensures HexCode(c) == -1 || c == DIGITS[HexCode(c)] as int || c == CAPITALS[HexCode(c)] as int
  {
    if 0 <= HexCode(c) < 10 { assert DIGITS[HexCode(c)] as int == 48 + HexCode(c); }
    if HexCode(c) >= 10 && c < 97 { assert CAPITALS[HexCode(c)] as int == 55 + HexCode(c); }
    if c >= 97 && HexCode(c) >= 10 { assert DIGITS[HexCode(c)] as int == 87 + HexCode(c); }
  }

  function HexPair(b: Byte): (t: seq<Byte>)
    ensures |t| == 2
  {
    [HexDigit(b / 16), HexDigit(b % 16)]
  }

  function PairValue(t: seq<Byte>): Byte
    requires |t| == 2
  {
    var v := HexCode(t[0]) * 16 + HexCode(t[1]);
    if v < 0 then v + 256 else v
  }

  lemma DigitBack(d: nat)
    requires d < 16
    ensures HexCode(HexDigit(d)) == d
  {
  }

  lemma PairBack(b: Byte)
    ensures PairValue(HexPair(b)) == b
  {
    DigitBack(b / 16);
    DigitBack(b % 16);
  }

  function Hex(b: seq<Byte>): (t: seq<Byte>)
    ensures |t| == 2 * |b|
  {
    if b == [] then [] else Hex(b[..|b| - 1]) + HexPair(b[|b| - 1])
  }

  function Unhex(t: seq<Byte>): (b: seq<Byte>)
    requires |t| % 2 == 0
    ensures |b| == |t| / 2
  {
    if t == [] then [] else Unhex(t[..|t| - 2]) + [PairValue(t[|t| - 2..])]
  }

  lemma UnhexStep(t: seq<Byte>, pair: seq<Byte>)
    requires |t| % 2 == 0 && |pair| == 2
    ensures Unhex(t + pair) == Unhex(t) + [PairValue(pair)]
  {
    var s := t + pair;
    assert s[..|s| - 2] == t && s[|s| - 2..] == pair;
  }

  lemma {:induction false} UnhexBack(b: seq<Byte>)
    ensures Unhex(Hex(b)) == b
  {
    if b != [] {
      var n := |b| - 1;
      var t := Hex(b[..n]);
      UnhexBack(b[..n]);
      UnhexPair(t, b[n]);
      HexLast(b, t);
      FrontAndLast(b);
    }
  }

  lemma HexLast(b: seq<Byte>, t: seq<Byte>)
    requires b != [] && t == Hex(b[..|b| - 1])
    ensures Hex(b) == t + HexPair(b[|b| - 1])
  {
  }

  lemma UnhexPair(t: seq<Byte>, b: Byte)
    requires |t| % 2 == 0
    ensures Unhex(t + HexPair(b)) == Unhex(t) + [b]
  {
    UnhexStep(t, HexPair(b));
    PairBack(b);
  }

  /** The text of a format and its data. */
  function Dump(t: seq<Item>, b: seq<Byte>): (s: seq<Byte>)
    requires |b| >= Need(t)
    ensures |s| == Length(t)
  {
    if t == [] then []
    else if t[0].Field? then Hex(b[..t[0].n]) + Dump(t[1..], b[t[0].n..])
    else [t[0].c] + Dump(t[1..], b)
  }

  /** The text goes on as far as the format is compared with it. */
  ghost predicate Covers(t: seq<Item>, s: seq<Byte>) {
    t == [] || if t[0].Field? then 2 * t[0].n <= |s| && Covers(t[1..], s[2 * t[0].n..])
      else s != [] && (s[0] == t[0].c ==> Covers(t[1..], s[1..]))
  }

  datatype Packed = Packed(data: seq<Byte>, count: nat)

  /** The data read from a text under a format, up to the first character that differs. */
  ghost function Pack(t: seq<Item>, s: seq<Byte>): Packed
    requires Covers(t, s)
  {
    if t == [] then Packed([], 0)
    else if t[0].Field? then
      var n := t[0].n;
      var rest := Pack(t[1..], s[2 * n..]);
      Packed(Unhex(s[..2 * n]) + rest.data, 2 * n % WORD + rest.count)
    else if s[0] != t[0].c then Packed([], 0)
    else var rest := Pack(t[1..], s[1..]); rest.(count := 1 + rest.count)
  }

  /** Packing a dump under its own format gives back the data, and the count `hexsize` gives. */
  lemma RoundTrip(t: seq<Item>, b: seq<Byte>, tail: seq<Byte>)
    requires |b| == Need(t)
    ensures Covers(t, Dump(t, b) + tail)
    ensures Pack(t, Dump(t, b) + tail) == Packed(b, Counted(t))
  {
    PackFirst(t, [], b, tail);
    assert t + [] == t;
  }

  /** A dump is packed back, and then whatever follows it under the rest of the format. */
  lemma {:induction false} PackFirst(t: seq<Item>, more: seq<Item>, b: seq<Byte>, rest: seq<Byte>)
    requires |b| == Need(t) && Covers(more, rest)
    ensures Covers(t + more, Dump(t, b) + rest)
    ensures Pack(t + more, Dump(t, b) + rest) ==
      Packed(b + Pack(more, rest).data, Counted(t) + Pack(more, rest).count)
    decreases t, 1
  {
    if t == [] {
      assert t + more == more && Dump(t, b) + rest == rest;
    } else {
      var all := t + more;
      assert all[0] == t[0] && all[1..] == t[1..] + more;
      if t[0].Field? {
        PackOneField(t, more, all, b, rest);
      } else {
        PackFirst(t[1..], more, b, rest);
        Assoc([t[0].c], Dump(t[1..], b), rest);
        LitBack(all, Dump(t[1..], b) + rest, Dump(t, b) + rest);
      }
    }
  }

  lemma {:induction false} PackOneField(t: seq<Item>, more: seq<Item>, all: seq<Item>, b: seq<Byte>, rest: seq<Byte>)
    requires |b| == Need(t) && Covers(more, rest) && t != [] && t[0].Field?
    requires all != [] && all[0] == t[0] && all[1..] == t[1..] + more
    ensures Covers(all, Dump(t, b) + rest)
    ensures Pack(all, Dump(t, b) + rest) == Packed(b + Pack(more, rest).data, Counted(t) + Pack(more, rest).count)
    decreases t, 0
  {
    var n := t[0].n;
    var x, d, q := b[..n], b[n..], Pack(more, rest).data;
    var tail := Dump(t[1..], d) + rest;
    PackFirst(t[1..], more, d, rest);
    DumpFirst(t, b, n, rest);
    FieldBack(all, x, tail);
    TwoParts(b, n, q);
  }

  lemma DumpFirst(t: seq<Item>, b: seq<Byte>, n: nat, rest: seq<Byte>)
    requires t != [] && t[0] == Field(n) && |b| == Need(t)
    ensures n <= |b| && |b[n..]| == Need(t[1..])
    ensures Dump(t, b) + rest == Hex(b[..n]) + (Dump(t[1..], b[n..]) + rest)
  {
    Assoc(Hex(b[..n]), Dump(t[1..], b[n..]), rest);
  }

  lemma TwoParts(b: seq<Byte>, n: nat, q: seq<Byte>)
    requires n <= |b|
    ensures b[..n] + (b[n..] + q) == b + q
  {
    assert b == b[..n] + b[n..];
    Assoc(b[..n], b[n..], q);
  }

  lemma LitBack(t: seq<Item>, rest: seq<Byte>, s: seq<Byte>)
    requires t != [] && t[0].Lit? && Covers(t[1..], rest) && s == [t[0].c] + rest
    ensures Covers(t, s)
    ensures Pack(t, s) == Packed(Pack(t[1..], rest).data, 1 + Pack(t[1..], rest).count)
  {
    assert s[1..] == rest;
  }

  lemma FieldBack(t: seq<Item>, a: seq<Byte>, rest: seq<Byte>)
    requires t != [] && t[0] == Field(|a|) && Covers(t[1..], rest)
    ensures Covers(t, Hex(a) + rest)
    ensures var p := Pack(t[1..], rest);
      Pack(t, Hex(a) + rest) == Packed(a + p.data, 2 * |a| % WORD + p.count)
  {
    var s := Hex(a) + rest;
    assert s[..2 * |a|] == Hex(a) && s[2 * |a|..] == rest;
    UnhexBack(a);
  }

  /** Packing stops at the first character that is not the format's, with the data and the count so far. */
  lemma PackStops(t: seq<Item>, c: Byte, more: seq<Item>, b: seq<Byte>, d: Byte, tail: seq<Byte>)
    requires |b| == Need(t) && d != c
    ensures Covers(t + ([Lit(c)] + more), Dump(t, b) + ([d] + tail))
    ensures Pack(t + ([Lit(c)] + more), Dump(t, b) + ([d] + tail)) == Packed(b, Counted(t))
  {
    assert Pack([Lit(c)] + more, [d] + tail) == Packed([], 0);
    PackFirst(t, [Lit(c)] + more, b, [d] + tail);
  }

  // ---------------------------------------------------------------- text in either case

  /** The same but for the case of letters. */
  ghost predicate CaseApart(a: seq<Byte>, b: seq<Byte>) {
    |a| == |b| && forall i :: 0 <= i < |a| ==>
      a[i] == b[i] || (65 <= a[i] <= 90 && b[i] == a[i] + 32) || (65 <= b[i] <= 90 && a[i] == b[i] + 32)
  }

  lemma {:induction false} UnhexIgnoresCase(a: seq<Byte>, b: seq<Byte>)
    requires CaseApart(a, b) && |a| % 2 == 0
    ensures Unhex(a) == Unhex(b)
  {
    if a != [] {
      var n := |a| - 2;
      assert HexCode(a[n]) == HexCode(b[n]) && HexCode(a[n + 1]) == HexCode(b[n + 1]);
      UnhexIgnoresCase(a[..n], b[..n]);
    }
  }

  /** The same under a format but for the case of letters in its fields. */
  ghost predicate FieldsApart(t: seq<Item>, a: seq<Byte>, b: seq<Byte>)
    requires Covers(t, a)
  {
    t == [] || if t[0].Field? then
        var n := 2 * t[0].n;
        n <= |b| && CaseApart(a[..n], b[..n]) && FieldsApart(t[1..], a[n..], b[n..])
      else b != [] && b[0] == a[0] && (a[0] == t[0].c ==> FieldsApart(t[1..], a[1..], b[1..]))
  }

  /** The case of the letters in the fields does not matter. */
  lemma {:induction false} PackIgnoresCase(t: seq<Item>, a: seq<Byte>, b: seq<Byte>)
    requires Covers(t, a) && FieldsApart(t, a, b)
    ensures Covers(t, b) && Pack(t, b) == Pack(t, a)
  {
    if t != [] {
      if t[0].Field? {
        var n := 2 * t[0].n;
        UnhexIgnoresCase(a[..n], b[..n]);
        PackIgnoresCase(t[1..], a[n..], b[n..]);
      } else if a[0] == t[0].c {
        PackIgnoresCase(t[1..], a[1..], b[1..]);
      }
    }
  }

  // ---------------------------------------------------------------- the routines

  lemma ItemsAt(format: seq<Byte>, f: nat)
    requires f < |format|
    ensures !IsDigit(format[f]) ==> Items(format[f..]) == [Lit(format[f])] + Items(format[f + 1..])
    ensures f + Run(format[f..]) <= |format|
    ensures IsDigit(format[f]) ==>
      Items(format[f..]) == [Field(Skip(format[f..]))] + Items(format[f + Run(format[f..])..])
  {
    var s := format[f..];
    assert s[1..] == format[f + 1..] && s[Run(s)..] == format[f + Run(s)..];
  }

  /** The next item of a format: a character, or the number `strtol` reads. */
  method NextItem(format: seq<Byte>, f: nat) returns (item: Item, next: nat)
    requires f < |format|
    ensures f < next <= |format| && Items(format[f..]) == [item] + Items(format[next..])
    ensures item.Field? ==> item.n < WORD
  {
    ItemsAt(format, f);
    if !IsDigit(format[f]) {
      item, next := Lit(format[f]), f + 1;
    } else {
      item, next := Field(Skip(format[f..])), f + Run(format[f..]);
    }
  }

  lemma CountedStep(item: Item, t: seq<Item>)
    ensures Counted([item] + t) == (if item.Field? then 2 * item.n % WORD else 1) + Counted(t)
  {
    assert ([item] + t)[1..] == t;
  }

  /** `String::hexsize`. */
  method HexSize(format: seq<Byte>) returns (count: nat)
    ensures count == Counted(Items(format))
  {
    count := 0;
    var f: nat := 0;
    assert format[0..] == format;
    while f < |format|
      invariant f <= |format| && count + Counted(Items(format[f..])) == Counted(Items(format))
    {
      var item, next := NextItem(format, f);
      CountedStep(item, Items(format[next..]));
      f, count := next, count + if item.Field? then 2 * item.n % WORD else 1;
    }
  }

  /** `out` is the text of the format `whole` up to its end `t`, and `count` what has been counted for it. */
  ghost predicate Progress(whole: seq<Item>, t: seq<Item>, data: seq<Byte>, b: nat, out: seq<Byte>, count: nat) {
    && Need(whole) <= |data| && b + Need(t) <= |data|
    && out + Dump(t, data[b..]) == Dump(whole, data)
    && count + Counted(t) == Counted(whole)
  }

  lemma LitProgress(whole: seq<Item>, c: Byte, t: seq<Item>, data: seq<Byte>, b: nat, out: seq<Byte>, count: nat)
    requires Progress(whole, [Lit(c)] + t, data, b, out, count)
    ensures Progress(whole, t, data, b, out + [c], count + 1) && |out| < Length(whole)
  {
    assert ([Lit(c)] + t)[1..] == t;
    Assoc(out, [c], Dump(t, data[b..]));
  }

  lemma FieldProgress(whole: seq<Item>, n: nat, t: seq<Item>, data: seq<Byte>, b: nat, out: seq<Byte>, count: nat)
    requires Progress(whole, [Field(n)] + t, data, b, out, count)
    ensures b + n <= |data| && |out| + 2 * n <= Length(whole)
    ensures Progress(whole, t, data, b + n, out + Hex(data[b..b + n]), count + 2 * n % WORD)
  {
    FieldFirst([Field(n)] + t, n, t, data, b);
    Assoc(out, Hex(data[b..b + n]), Dump(t, data[b + n..]));
  }

  lemma FieldFirst(t: seq<Item>, n: nat, next: seq<Item>, data: seq<Byte>, b: nat)
    requires t == [Field(n)] + next && b + Need(t) <= |data|
    ensures Need(t) == n + Need(next) && Counted(t) == 2 * n % WORD + Counted(next)
    ensures Dump(t, data[b..]) == Hex(data[b..b + n]) + Dump(next, data[b + n..])
  {
    assert t[1..] == next;
    assert data[b..][..n] == data[b..b + n] && data[b..][n..] == data[b + n..];
  }

  /** One byte as `snprintf(.., 3, "%02x", ..)` writes it: two digits and a terminator. */
  method PutHex(dest: array<Byte>, at: nat, x: Byte)
    requires at + 2 < dest.Length
    modifies dest
    ensures dest[..at + 2] == old(dest[..at]) + HexPair(x) && dest[at + 2] == NUL
    ensures dest[at + 3..] == old(dest[at + 3..])
  {
    dest[at] := HexDigit(x / 16);
    dest[at + 1] := HexDigit(x % 16);
    dest[at + 2] := NUL;
  }

  /** The inner loop of `hexdump`: one field, which leaves a terminator just past it and touches nothing
      after place `last`. */
  method DumpField(binary: array<Byte>, b: nat, dest: array<Byte>, s: nat, skip: nat, ghost last: nat)
    requires binary != dest && b + skip <= binary.Length && s + 2 * skip <= last < dest.Length
    modifies dest
    ensures dest[..s + 2 * skip] == old(dest[..s]) + Hex(binary[b..b + skip])
    ensures dest[s + 2 * skip] == if skip > 0 then NUL else old(dest[s])
    ensures dest[last + 1..] == old(dest[last + 1..])
  {
    var k := 0;
    ghost var orig := dest[..];
    while k < skip
      invariant k <= skip && dest[..s + 2 * k] == orig[..s] + Hex(binary[b..b + k])
      invariant dest[s + 2 * k] == if k > 0 then NUL else orig[s]
      invariant dest[last + 1..] == orig[last + 1..]
    {
      KeepBeyond(dest[..], s + 2 * k + 3, last + 1);
      PutHex(dest, s + 2 * k, binary[b + k]);
      KeepBeyond(dest[..], s + 2 * k + 3, last + 1);
      HexMore(binary[..], b, k, orig[..s]);
      k := k + 1;
    }
  }

  lemma HexMore(data: seq<Byte>, b: nat, k: nat, out: seq<Byte>)
    requires b + k < |data|
    ensures out + Hex(data[b..b + k]) + HexPair(data[b + k]) == out + Hex(data[b..b + k + 1])
  {
    var t := Hex(data[b..b + k]);
    assert data[b..b + k + 1][..k] == data[b..b + k];
    HexLast(data[b..b + k + 1], t);
    Assoc(out, t, HexPair(data[b + k]));
  }

  /** One turn of `hexdump`; nothing after the text and its terminator is touched. */
  method DumpItem(binary: array<Byte>, b: nat, dest: array<Byte>, s: nat, item: Item, count: nat,
      ghost whole: seq<Item>, ghost t: seq<Item>, ghost out: seq<Byte>)
      returns (b': nat, s': nat, count': nat, ghost out': seq<Byte>)
    requires binary != dest && Length(whole) < dest.Length && s == |out| <= Length(whole) && dest[..s] == out
    requires Progress(whole, [item] + t, binary[..], b, out, count)
    modifies dest
    ensures s' == |out'| <= Length(whole) && dest[..s'] == out'
    ensures dest[Length(whole) + 1..] == old(dest[Length(whole) + 1..])
    ensures Progress(whole, t, binary[..], b', out', count')
  {
    match item
    case Lit(c) =>
      LitProgress(whole, c, t, binary[..], b, out, count);
      dest[s] := c;
      b', s', count', out' := b, s + 1, count + 1, out + [c];
    case Field(skip) =>
      b', s', count', out' := DumpFieldItem(binary, b, dest, s, skip, count, whole, t, out);
  }

  method DumpFieldItem(binary: array<Byte>, b: nat, dest: array<Byte>, s: nat, skip: nat, count: nat,
      ghost whole: seq<Item>, ghost t: seq<Item>, ghost out: seq<Byte>)
      returns (b': nat, s': nat, count': nat, ghost out': seq<Byte>)
    requires binary != dest && Length(whole) < dest.Length && s == |out| <= Length(whole) && dest[..s] == out
    requires Progress(whole, [Field(skip)] + t, binary[..], b, out, count)
    modifies dest
    ensures s' == |out'| <= Length(whole) && dest[..s'] == out'
    ensures dest[Length(whole) + 1..] == old(dest[Length(whole) + 1..])
    ensures Progress(whole, t, binary[..], b', out', count')
  {
    ghost var data := binary[..];
    FieldProgress(whole, skip, t, data, b, out, count);
    DumpField(binary, b, dest, s, skip, Length(whole));
    assert data == binary[..] && data[b..b + skip] == binary[b..b + skip];
    b', s', count', out' := b + skip, s + 2 * skip, count + 2 * skip % WORD, out + Hex(data[b..b + skip]);
  }

  lemma KeepBeyond(s: seq<Byte>, i: nat, j: nat)
    requires i <= j <= |s|
    ensures s[j..] == s[i..][j - i..]
  {
  }

  /** `String::hexdump`. */
  method HexDump(binary: array<Byte>, dest: array<Byte>, format: seq<Byte>) returns (count: nat)
    requires binary != dest && Need(Items(format)) <= binary.Length && Length(Items(format)) < dest.Length
    modifies dest
    ensures dest[..Length(Items(format))] == Dump(Items(format), binary[..])
    ensures dest[Length(Items(format))] == NUL && count == Counted(Items(format))
    ensures dest[Length(Items(format)) + 1..] == old(dest[Length(Items(format)) + 1..])
  {
    count := 0;
    ghost var data, out, whole := binary[..], [], Items(format);
    ghost var t, beyond := whole, dest[Length(whole) + 1..];
    var f: nat, b: nat, s: nat := 0, 0, 0;
    assert format[0..] == format && data[0..] == data;
    while f < |format|
      invariant f <= |format| && t == Items(format[f..]) && s == |out| <= Length(whole) && dest[..s] == out
      invariant dest[Length(whole) + 1..] == beyond && Progress(whole, t, data, b, out, count)
    {
      var item, next := NextItem(format, f);
      t := Items(format[next..]);
      b, s, count, out := DumpItem(binary, b, dest, s, item, count, whole, t, out);
      f := next;
    }
    assert out == Dump(whole, data);
    dest[s] := NUL;
  }

  /** One byte of `hexpack`. */
  method PackByte(binary: array<Byte>, at: nat, x: Byte, y: Byte, ghost orig: seq<Byte>, ghost out: seq<Byte>)
    requires at == |out| < binary.Length && Wrote(binary[..], orig, out)
    modifies binary
    ensures Wrote(binary[..], orig, out + [PairValue([x, y])])
  {
    binary[at] := (HexCode(x) * 16 + HexCode(y)) % 256;
  }

  /** The inner loop of `hexpack`: one field. */
  method PackField(binary: array<Byte>, b: nat, text: seq<Byte>, s: nat, skip: nat,
      ghost orig: seq<Byte>, ghost out: seq<Byte>)
    requires b + skip <= binary.Length && s + 2 * skip <= |text|
    requires b == |out| && Wrote(binary[..], orig, out)
    modifies binary
    ensures Wrote(binary[..], orig, out + Unhex(text[s..s + 2 * skip]))
  {
    var k := 0;
    ghost var all := out;
    assert out + Unhex(text[s..s]) == out;
    while k < skip
      invariant k <= skip && |all| == b + k && Wrote(binary[..], orig, all) && all == out + Unhex(text[s..s + 2 * k])
    {
      var at := s + 2 * k;
      UnhexNext(text, s, at, out, all);
      PackByte(binary, b + k, text[at], text[at + 1], orig, all);
      all := all + [PairValue([text[at], text[at + 1]])];
      k := k + 1;
    }
  }

  lemma UnhexNext(text: seq<Byte>, s: nat, at: nat, out: seq<Byte>, all: seq<Byte>)
    requires s <= at && at + 2 <= |text| && (at - s) % 2 == 0 && all == out + Unhex(text[s..at])
    ensures all + [PairValue([text[at], text[at + 1]])] == out + Unhex(text[s..at + 2])
  {
    var t, pair := text[s..at], [text[at], text[at + 1]];
    assert text[s..at + 2] == t + pair;
    UnhexGrow(t, pair, out, all);
  }

  lemma UnhexGrow(t: seq<Byte>, pair: seq<Byte>, out: seq<Byte>, all: seq<Byte>)
    requires |t| % 2 == 0 && |pair| == 2 && all == out + Unhex(t)
    ensures all + [PairValue(pair)] == out + Unhex(t + pair)
  {
    UnhexStep(t, pair);
    Assoc(out, Unhex(t), [PairValue(pair)]);
  }

  /** `out` is the data read so far, and `t` the rest of the format, to be read from place `s` on. */
  ghost predicate Unpacked(whole: seq<Item>, t: seq<Item>, text: seq<Byte>, s: nat, out: seq<Byte>, count: nat) {
    && Covers(whole, text) && s <= |text| && Covers(t, text[s..]) && |out| + Need(t) == Need(whole)
    && out + Pack(t, text[s..]).data == Pack(whole, text).data
    && count + Pack(t, text[s..]).count == Pack(whole, text).count
  }

  lemma LitUnpacked(whole: seq<Item>, c: Byte, t: seq<Item>, text: seq<Byte>, s: nat, out: seq<Byte>, count: nat)
    requires Unpacked(whole, [Lit(c)] + t, text, s, out, count)
    ensures s < |text|
    ensures text[s] == c ==> Unpacked(whole, t, text, s + 1, out, count + 1)
    ensures text[s] != c ==> Pack(whole, text) == Packed(out, count)
  {
    assert ([Lit(c)] + t)[1..] == t && text[s..][1..] == text[s + 1..];
  }

  lemma FieldUnpacked(whole: seq<Item>, n: nat, t: seq<Item>, text: seq<Byte>, s: nat, out: seq<Byte>, count: nat)
    requires Unpacked(whole, [Field(n)] + t, text, s, out, count)
    ensures s + 2 * n <= |text| && |out| + n <= Need(whole)
    ensures Unpacked(whole, t, text, s + 2 * n, out + Unhex(text[s..s + 2 * n]), count + 2 * n % WORD)
  {
    var u := text[s..];
    assert ([Field(n)] + t)[1..] == t;
    assert u[..2 * n] == text[s..s + 2 * n] && u[2 * n..] == text[s + 2 * n..];
    Assoc(out, Unhex(u[..2 * n]), Pack(t, u[2 * n..]).data);
  }

  /** `String::hexpack`. */
  method HexPack(binary: array<Byte>, text: seq<Byte>, format: seq<Byte>) returns (count: nat)
    requires Covers(Items(format), text) && Need(Items(format)) <= binary.Length
    modifies binary
    ensures Wrote(binary[..], old(binary[..]), Pack(Items(format), text).data)
    ensures count == Pack(Items(format), text).count
  {
    count := 0;
    ghost var orig, out, whole := binary[..], [], Items(format);
    ghost var t := whole;
    var f: nat, b: nat, s: nat := 0, 0, 0;
    assert format[0..] == format && text[0..] == text;
    while f < |format|
      invariant f <= |format| && t == Items(format[f..]) && b == |out| && Wrote(binary[..], orig, out)
      invariant Unpacked(whole, t, text, s, out, count)
    {
      var item, next := NextItem(format, f);
      t := Items(format[next..]);
      var same;
      b, s, count, same, out := PackItem(binary, b, text, s, item, count, whole, t, orig, out);
      if !same { return; }
      f := next;
    }
    assert out == Pack(whole, text).data;
  }

  /** One turn of `hexpack`, which stops when a character is not the format's. */
  method PackItem(binary: array<Byte>, b: nat, text: seq<Byte>, s: nat, item: Item, count: nat,
      ghost whole: seq<Item>, ghost t: seq<Item>, ghost orig: seq<Byte>, ghost out: seq<Byte>)
      returns (b': nat, s': nat, count': nat, same: bool, ghost out': seq<Byte>)
    requires Need(whole) <= binary.Length && b == |out| && Wrote(binary[..], orig, out)
    requires Unpacked(whole, [item] + t, text, s, out, count)
    modifies binary
    ensures b' == |out'| && Wrote(binary[..], orig, out')
    ensures same ==> Unpacked(whole, t, text, s', out', count')
    ensures !same ==> Pack(whole, text) == Packed(out', count')
  {
    b', s', count', same, out' := b, s, count, true, out;
    match item
    case Lit(c) =>
      LitUnpacked(whole, c, t, text, s, out, count);
      same := text[s] == c;
      if same { s', count' := s + 1, count + 1; }
    case Field(skip) =>
      FieldUnpacked(whole, skip, t, text, s, out, count);
      PackField(binary, b, text, s, skip, orig, out);
      b', s', count', out' := b + skip, s + 2 * skip, count + 2 * skip % WORD, out + Unhex(text[s..s + 2 * skip]);
  }
}
