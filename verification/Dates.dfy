/** The `Date` object of corelib/datetime.cpp: a day number with a text form. */
module Dates {
  import opened Bytes
  import opened Calendar
  import opened Numbers

  /** The full-date of section 5.6 of RFC 3339: year, month and day in 4, 2 and 2 columns. */
  function DateText(x: Day): (s: seq<Byte>)
    ensures |s| == 10
  {
    Field(x.y, 4) + [MINUS] + Field(x.m, 2) + [MINUS] + Field(x.d, 2)
  }

  /** The year of a text, and the columns where its month and day begin. */
  datatype Layout = Layout(year: int, month: nat, day: nat) | NoDate

  /** The six layouts `Date::set(str, size)` knows, when today is in year `now`. */
  function LayoutOf(s: seq<Byte>, now: int): (l: Layout)
    ensures l.Layout? ==> l.month + 2 <= |s| && l.day + 2 <= |s|
  {
    var century := Quot(now, 100) * 100;
    if |s| == 4 then Layout(now, 0, 2)
    else if |s| == 5 then Layout(now, 0, 3)
    else if |s| == 6 then Layout(century + Value(s[0..2]), 2, 4)
    else if |s| == 8 && IsDigit(s[2]) && IsDigit(s[5]) then Layout(Value(s[0..4]), 4, 6)
    else if |s| == 8 then Layout(century + Value(s[0..2]), 3, 6)
    else if |s| == 10 then Layout(Value(s[0..4]), 5, 8)
    else NoDate
  }

  /** The day number `Date::set(str, size)` stores. */
  function TextNumber(s: seq<Byte>, now: int): int {
    var l := LayoutOf(s, now);
    if l.NoDate? then INVALID
    else Julian(l.year, Value(s[l.month..l.month + 2]), Value(s[l.day..l.day + 2]))
  }

  class Date {
    var julian: int

    /** `Date::set(year, month, day)`. */
    method Set(year: int, month: int, day: int)
      modifies this
      ensures julian == Julian(year, month, day)
      ensures Valid(Day(year, month, day)) ==> Civil(julian) == Day(year, month, day)
    {
      ghost var x := Day(year, month, day);
      julian := Julian(year, month, day);
      if Valid(x) { CivilAt(x, julian); }
    }

    /** `Date::set(str, size)`; a size of 0 stands for the length of a terminated string. */
    method SetText(str: array<Byte>, size: nat, now: int)
      requires if size == 0 then NUL in str[..] else size <= str.Length
      modifies this
      ensures julian == TextNumber(str[..if size == 0 then StrLen(str[..]) else size], now)
    {
      var n := size;
      if n == 0 { n := StrLen(str[..]); }
      var l := ReadLayout(str, n, now);
      if l.NoDate? {
        julian := INVALID;
        return;
      }
      var month := ReadField(str, n, l.month, 2);
      var day := ReadField(str, n, l.day, 2);
      Set(l.year, month, day);
    }

    /** The conversion in `Date::put`, due to Fliegel and Van Flandern. */
    method Convert() returns (x: Day)
      ensures x == Civil(julian)
    {
      var l := julian + 68569;
      var n := Quot(4 * l, 146097);
      l := l - Quot(146097 * n + 3, 4);
      assert Civil(julian) == InCentury(n, l);
      var i := Quot(4000 * (l + 1), 1461001);
      l := l - Quot(1461 * i, 4) + 31;
      assert Civil(julian) == InYear(n, i, l);
      var j := Quot(80 * l, 2447);
      var k := l - Quot(2447 * j, 80);
      l := Quot(j, 11);
      j := j + 2 - 12 * l;
      i := 100 * (n - 49) + i + l;
      x := Day(i, j, k);
    }

    /** `Date::put`. */
    method Put(buffer: array<Byte>)
      requires buffer.Length >= 11
      modifies buffer
      ensures buffer[..10] == DateText(Civil(julian)) && buffer[10] == NUL
      ensures forall k :: 11 <= k < buffer.Length ==> buffer[k] == old(buffer[k])
    {
      var x := Convert();
      PutFields(buffer, x);
    }

    /** `++` is `Add(1)`, `--` is `Subtract(1)`. */
    method Add(n: int)
      modifies this
      ensures julian == old(julian) + n
      ensures n >= 0 && old(julian) >= DayNumber(FIRST_DAY) ==> Civil(julian) == DaysLater(Civil(old(julian)), n)
    {
      ghost var j := julian;
      julian := julian + n;
      if n >= 0 && j >= DayNumber(FIRST_DAY) {
        EveryNumber(j);
        AddWalks(Civil(j), j, n);
      }
    }

    method Subtract(n: int)
      modifies this
      ensures julian == old(julian) - n
      ensures n >= 0 && julian >= DayNumber(FIRST_DAY) ==> DaysLater(Civil(julian), n) == Civil(old(julian))
    {
      julian := julian - n;
      if n >= 0 && julian >= DayNumber(FIRST_DAY) {
        EveryNumber(julian);
        AddWalks(Civil(julian), julian, n);
      }
    }

    /** `<` on two dates is the order of their years, months and days. */
    method IsBefore(other: Date) returns (less: bool)
      ensures less == (julian < other.julian)
      ensures julian >= DayNumber(FIRST_DAY) && other.julian >= DayNumber(FIRST_DAY) ==>
        less == Before(Civil(julian), Civil(other.julian))
    {
      less := julian < other.julian;
      if julian >= DayNumber(FIRST_DAY) && other.julian >= DayNumber(FIRST_DAY) {
        EveryNumber(julian);
        EveryNumber(other.julian);
        OrderAgrees(Civil(julian), Civil(other.julian));
      }
    }
  }

  method PutFields(buffer: array<Byte>, x: Day)
    requires buffer.Length >= 11
    modifies buffer
    ensures buffer[..10] == DateText(x) && buffer[10] == NUL
    ensures forall k :: 11 <= k < buffer.Length ==> buffer[k] == old(buffer[k])
  {
    var nyear := new Number(buffer, 0, 4);
    buffer[4] := MINUS;
    var nmonth := new Number(buffer, 5, 2);
    buffer[7] := MINUS;
    var nday := new Number(buffer, 8, 2);
    nyear.SetZeroed(x.y);
    nmonth.SetZeroed(x.m);
    nday.SetZeroed(x.d);
    buffer[10] := NUL;
  }

  method ReadLayout(str: array<Byte>, n: nat, now: int) returns (l: Layout)
    requires n <= str.Length
    ensures l == LayoutOf(str[..n], now)
  {
    if n == 4 {
      l := Layout(now, 0, 2);
    } else if n == 5 {
      l := Layout(now, 0, 3);
    } else if n == 6 {
      var year := ReadField(str, n, 0, 2);
      l := Layout(Quot(now, 100) * 100 + year, 2, 4);
    } else if n == 8 && IsDigit(str[2]) && IsDigit(str[5]) {
      var year := ReadField(str, n, 0, 4);
      l := Layout(year, 4, 6);
    } else if n == 8 {
      var year := ReadField(str, n, 0, 2);
      l := Layout(Quot(now, 100) * 100 + year, 3, 6);
    } else if n == 10 {
      var year := ReadField(str, n, 0, 4);
      l := Layout(year, 5, 8);
    } else {
      l := NoDate;
    }
  }

  method ReadField(str: array<Byte>, n: nat, at: nat, width: nat) returns (value: int)
    requires n <= str.Length && at + width <= n && 1 <= width <= 10
    ensures value == Value(str[..n][at..at + width])
  {
    var field := new Number(str, at, width);
    value := field.Get();
    assert str[..n][at..at + width] == str[at..at + width];
  }

  // ---------------------------------------------------------------- the text names the day

  lemma DateTextParts(x: Day)
    ensures var s := DateText(x); s[..4] == Field(x.y, 4) && s[5..7] == Field(x.m, 2) && s[8..10] == Field(x.d, 2)
  {
  }

  /** The four columns of a long year read as some year of at most four digits. */
  lemma LongYearRead(y: int)
    requires y >= 10000
    ensures -1000 < Value(Field(y, 4)) < 10000
  {
    var f := Field(y, 4);
    assert Pow10(3) == 1000 && Pow10(4) == 10000;
    LeadingBound(f, 0);
    LeadingBound(f[1..], 0);
  }

  /** Read with an earlier year, a date's month and day give an earlier day. */
  lemma EarlierYear(x: Day, z: int)
    requires Valid(x) && 1 <= z < x.y
    ensures Julian(z, x.m, x.d) < DayNumber(x)
  {
    var e := Day(z, x.m, x.d);
    if Valid(e) {
      OrderAgrees(e, x);
    } else {
      LeapDayMoves(z);
      OrderAgrees(Day(z, 3, 1), x);
    }
  }

  /** 29 February of another year counts as 1 March. */
  lemma LeapDayMoves(z: int)
    requires z >= 1 && !Leap(z)
    ensures Julian(z, 2, 29) == DayNumber(Day(z, 3, 1))
  {
    NumberForm(Day(z, 2, 28));
    NumberForm(Day(z, 2, 29));
    NextDayNumber(Day(z, 2, 28));
  }

  /** Days of years before the first have smaller numbers. */
  lemma NegativeYear(x: Day, z: int)
    requires Valid(x) && -1000 < z < 0
    ensures Julian(z, x.m, x.d) < DayNumber(x)
  {
    NegativeBound(z, x.m, x.d);
    if x != FIRST_DAY { OrderAgrees(FIRST_DAY, x); }
  }

  lemma NegativeBound(z: int, m: int, d: int)
    requires -1000 < z < 0 && 1 <= m <= 12 && 1 <= d <= 31
    ensures Julian(z, m, d) < DayNumber(FIRST_DAY)
  {
    var c := Quot(m - 14, 12);
    assert c == if m <= 2 then -1 else 0;
    assert 0 <= 1461 * (z - 1 + 4800 + c) <= 1461 * 4798;
    assert 0 <= 367 * (m - 2 - c * 12) <= 367 * 12;
    assert 0 <= z - 1 + 4900 + c;
    NumberForm(FIRST_DAY);
  }

  lemma MarkedYear(j: int)
    requires j == INVALID
    ensures Civil(j) == Day(5874898, 6, 3)
  {
    CivilForm(j, 58797, 35888, 98, 125, 4, 3);
  }

  /** Four columns whose first is neither a digit nor a sign read as zero. */
  lemma NoYear(y: nat)
    requires y / 1000 % 256 == 242
    ensures Value(Field(y, 4)) == 0
  {
    assert Pow10(3) == 1000;
    assert Field(y, 4)[0] == 34;
  }

  /** A text whose year reads as zero is no date. */
  lemma NoDateText(x: Day, now: int)
    requires Value(Field(x.y, 4)) == 0
    ensures TextNumber(DateText(x), now) == INVALID
  {
    DateTextParts(x);
  }

  /** The one date whose number is the mark of an invalid date. */
  lemma MarkedDate(x: Day, j: int, now: int)
    requires Valid(x) && DayNumber(x) == j == INVALID
    ensures TextNumber(DateText(x), now) == INVALID
  {
    MarkedIs(x, j);
    NoYear(x.y);
    NoDateText(x, now);
  }

  lemma MarkedIs(x: Day, j: int)
    requires Valid(x) && DayNumber(x) == j == INVALID
    ensures x.y == 5874898
  {
    CivilAt(x, j);
    MarkedYear(j);
  }

  /** What `put` writes is read by `set` as the same day exactly for the years 1 to 9999, but for the one
      date whose number marks an invalid date: its text is not read as a date, which gives the same number. */
  lemma TextRoundTrip(x: Day, now: int)
    requires Valid(x)
    ensures TextNumber(DateText(x), now) == DayNumber(x) <==> x.y <= 9999 || x == LAST
  {
    DateTextParts(x);
    FieldsBack(x);
    InvalidExactly(x.y, x.m, x.d);
    if x.y > 9999 {
      LongYearLost(x, now, Value(Field(x.y, 4)));
    }
  }

  /** Which texts give the invalid day: those of other lengths than the layouts', and those whose fields, read at
      the layout's columns, name no month, no day of a month or no year. */
  lemma TextRefused(s: seq<Byte>, now: int)
    ensures LayoutOf(s, now).NoDate? <==> |s| !in {4, 5, 6, 8, 10}
    ensures var l := LayoutOf(s, now);
      if l.NoDate? then TextNumber(s, now) == INVALID
      else
        var m, d := Value(s[l.month..l.month + 2]), Value(s[l.day..l.day + 2]);
        (TextNumber(s, now) == INVALID <==> (OutOfRange(l.year, m, d) || Day(l.year, m, d) == LAST))
  {
    var l := LayoutOf(s, now);
    if l.Layout? {
      InvalidExactly(l.year, Value(s[l.month..l.month + 2]), Value(s[l.day..l.day + 2]));
    }
  }

  lemma LongYearLost(x: Day, now: int, z: int)
    requires Valid(x) && x.y > 9999 && z == Value(Field(x.y, 4))
    ensures TextNumber(DateText(x), now) == DayNumber(x) <==> DayNumber(x) == INVALID
  {
    DateTextParts(x);
    FieldsBack(x);
    LongYearRead(x.y);
    if DayNumber(x) == INVALID {
      MarkedDate(x, INVALID, now);
    } else if z > 0 {
      EarlierYear(x, z);
    } else if z < 0 {
      NegativeYear(x, z);
    }
  }

  /** The fields of the other layouts, `sep` standing between them where there is room. */
  function Compact(x: Day): (s: seq<Byte>)
    ensures |s| == 8
  {
    Field(x.y, 4) + Field(x.m, 2) + Field(x.d, 2)
  }

  function MonthDay(x: Day, sep: seq<Byte>): (s: seq<Byte>)
    ensures |s| == 4 + |sep|
  {
    Field(x.m, 2) + sep + Field(x.d, 2)
  }

  function TwoDigitYear(x: Day, sep: seq<Byte>): (s: seq<Byte>)
    ensures |s| == 6 + 2 * |sep|
  {
    Field(x.y % 100, 2) + sep + MonthDay(x, sep)
  }

  lemma FieldsBack(x: Day)
    requires Valid(x)
    ensures Value(Field(x.m, 2)) == x.m && Value(Field(x.d, 2)) == x.d && Value(Field(x.y % 100, 2)) == x.y % 100
    ensures x.y <= 9999 ==> Value(Field(x.y, 4)) == x.y
  {
    assert Pow10(2) == 100 && Pow10(4) == 10000;
    ReadsBack(x.y, 4);
    ReadsBack(x.m, 2);
    ReadsBack(x.d, 2);
    ReadsBack(x.y % 100, 2);
  }

  lemma DigitColumns(v: nat, n: nat, i: nat)
    requires v < Pow10(n) && i < n
    ensures IsDigit(Digits(v, n)[i])
  {
    LeadingDigits(v, n, 0);
    if i > 0 {
      Divide(v, Pow10(n - 1));
      DigitColumns(v % Pow10(n - 1), n - 1, i - 1);
    }
  }

  /** Eight digits: year, month and day without separators. */
  lemma CompactRead(x: Day, now: int)
    requires Valid(x) && x.y <= 9999
    ensures TextNumber(Compact(x), now) == DayNumber(x)
  {
    var s := Compact(x);
    assert s[0..4] == Field(x.y, 4) && s[4..6] == Field(x.m, 2) && s[6..8] == Field(x.d, 2);
    assert Pow10(2) == 100 && Pow10(4) == 10000;
    DigitColumns(x.y, 4, 2);
    DigitColumns(x.m, 2, 1);
    FieldsBack(x);
  }

  /** Month and day alone are read in the current year. */
  lemma MonthDayRead(x: Day, sep: seq<Byte>)
    requires Valid(x) && |sep| <= 1
    ensures TextNumber(MonthDay(x, sep), x.y) == DayNumber(x)
  {
    var s := MonthDay(x, sep);
    assert s[0..2] == Field(x.m, 2) && s[2 + |sep|..4 + |sep|] == Field(x.d, 2);
    FieldsBack(x);
  }

  /** Two digits of the year are read in the current century; eight characters need separators. */
  lemma TwoDigitYearRead(x: Day, sep: seq<Byte>, now: int)
    requires Valid(x) && now >= 0 && x.y / 100 == now / 100
    requires |sep| <= 1 && (sep != [] ==> !IsDigit(sep[0]))
    ensures TextNumber(TwoDigitYear(x, sep), now) == DayNumber(x)
  {
    var s, k := TwoDigitYear(x, sep), |sep|;
    assert s[0..2] == Field(x.y % 100, 2) && s[2 + k..4 + k] == Field(x.m, 2);
    assert s[4 + 2 * k..6 + 2 * k] == Field(x.d, 2);
    assert k == 1 ==> s[2] == sep[0];
    FieldsBack(x);
    assert now / 100 * 100 + x.y % 100 == x.y;
  }
}
