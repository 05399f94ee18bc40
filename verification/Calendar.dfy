/** Gregorian dates as Julian day numbers: class `Date` of corelib/datetime.cpp. */
module Calendar {

  /** C's division, which truncates toward zero. */
  function Quot(a: int, b: int): int
    requires b > 0
  {
    if a >= 0 then a / b else -(-a / b)
  }

  const INVALID := 0x7fff_ffff

  /** The day number `Date::set(year, month, day)` stores. */
  function Julian(year: int, month: int, day: int): int {
    if month < 1 || month > 12 || day < 1 || day > 31 || year == 0 then INVALID
    else
      var y := if year < 0 then year - 1 else year;
      var c := Quot(month - 14, 12);
      day - 32075
      + Quot(1461 * (y + 4800 + c), 4)
      + Quot(367 * (month - 2 - c * 12), 12)
      - Quot(3 * Quot(y + 4900 + c, 100), 4)
  }

  datatype Day = Day(y: int, m: int, d: int)

  function DayNumber(x: Day): int { Julian(x.y, x.m, x.d) }

  /** The year, month and day that `Date::put` computes from a day number: first the century, then the
      year of the century, then the month and day of the year. */
  function Civil(julian: int): Day {
    var l := julian + 68569;
    var n := Quot(4 * l, 146097);
    InCentury(n, l - Quot(146097 * n + 3, 4))
  }

  function InCentury(n: int, l: int): Day {
    var i := Quot(4000 * (l + 1), 1461001);
    InYear(n, i, l - Quot(1461 * i, 4) + 31)
  }

  function InYear(n: int, i: int, l: int): Day {
    var j := Quot(80 * l, 2447);
    var k := l - Quot(2447 * j, 80);
    var l' := Quot(j, 11);
    Day(100 * (n - 49) + i + l', j + 2 - 12 * l', k)
  }

  // ---------------------------------------------------------------- the calendar itself

  predicate Leap(y: int) { y % 4 == 0 && (y % 100 != 0 || y % 400 == 0) }

  function DaysIn(y: int, m: int): int {
    if m == 2 then (if Leap(y) then 29 else 28)
    else if m in {4, 6, 9, 11} then 30 else 31
  }

  predicate Valid(x: Day) { x.y >= 1 && 1 <= x.m <= 12 && 1 <= x.d <= DaysIn(x.y, x.m) }

  function NextDay(x: Day): Day {
    if x.d < DaysIn(x.y, x.m) then x.(d := x.d + 1)
    else if x.m < 12 then Day(x.y, x.m + 1, 1)
    else Day(x.y + 1, 1, 1)
  }

  predicate Before(a: Day, b: Day) {
    a.y < b.y || (a.y == b.y && (a.m < b.m || (a.m == b.m && a.d < b.d)))
  }

  const FIRST_DAY := Day(1, 1, 1)

  // ---------------------------------------------------------------- the day number, unfolded

  /** Years begin in March: month 1 is March and 11, 12 are January and February of the next year. */
  function MarchYear(x: Day): int { x.y + 4800 - if x.m <= 2 then 1 else 0 }
  function MarchMonth(x: Day): int { x.m - 2 + if x.m <= 2 then 12 else 0 }

  /** The two terms that depend on the March year, and the one that depends on the March month. */
  predicate YearTerm(a: int, t: int) { t == 1461 * a / 4 - 3 * ((a + 100) / 100) / 4 }
  predicate MonthTerm(m: int, t: int) { t == 367 * m / 12 }

  lemma NumberForm(x: Day)
    requires x.y >= 1 && 1 <= x.m <= 12 && 1 <= x.d <= 31
    ensures var a := MarchYear(x);
      DayNumber(x) == x.d - 32075 + 1461 * a / 4 - 3 * ((a + 100) / 100) / 4 + 367 * MarchMonth(x) / 12
  {
    assert Quot(x.m - 14, 12) == if x.m <= 2 then -1 else 0;
  }

  lemma NumberTerms(x: Day) returns (yt: int, mt: int)
    requires x.y >= 1 && 1 <= x.m <= 12 && 1 <= x.d <= 31
    ensures YearTerm(MarchYear(x), yt) && MonthTerm(MarchMonth(x), mt) && DayNumber(x) == x.d - 32075 + yt + mt
  {
    NumberForm(x);
    var a, m := MarchYear(x), MarchMonth(x);
    yt, mt := 1461 * a / 4 - 3 * ((a + 100) / 100) / 4, 367 * m / 12;
  }

  /** Split by century `c` and year of the century `q`, the number is a day of the century. */
  lemma CenturyForm(x: Day, c: int, q: int)
    requires x.y >= 1 && 1 <= x.m <= 12 && 1 <= x.d <= 31
    requires MarchYear(x) == 100 * c + q && 0 <= q < 100
    ensures DayNumber(x) + 68569 == (146097 * (c + 1) + 3) / 4 + 1461 * q / 4 + 367 * MarchMonth(x) / 12 + x.d - 31
  {
    NumberForm(x);
    CenturyTerms(MarchYear(x), c, q, c / 4, c % 4);
  }

  lemma CenturyTerms(a: int, c: int, q: int, e: int, f: int)
    requires a == 100 * c + q && 0 <= q < 100 && c == 4 * e + f && 0 <= f < 4
    ensures 1461 * a / 4 - 3 * ((a + 100) / 100) / 4 + 68569 - 32075 ==
      (146097 * (c + 1) + 3) / 4 + 1461 * q / 4 - 31
  {
    assert (a + 100) / 100 == c + 1;
    Quarter(36525 * c, 1461 * q);
    Quarter(3 * e + f, 3 - f);
    Quarter(36524 * (c + 1) + e + 1, f);
  }

  lemma Quarter(a: int, b: int)
    ensures (4 * a + b) / 4 == a + b / 4
  {
  }

  /** Days before March month `m`, and days up to the end of it. */
  lemma MonthForm(x: Day)
    requires Valid(x)
    ensures var m := MarchMonth(x); 367 * m / 12 == 2447 * m / 80 && 80 * (367 * m / 12 + x.d) / 2447 == m
  {
    var m := MarchMonth(x);
    assert 1 <= m <= 12;
    if m == 1 {} else if m == 2 {} else if m == 3 {} else if m == 4 {} else if m == 5 {} else if m == 6 {}
    else if m == 7 {} else if m == 8 {} else if m == 9 {} else if m == 10 {} else if m == 11 {} else {}
  }

  /** The division by years of the century recovers the year. */
  lemma YearForm(q: int, x: int)
    requires 0 <= q < 100 && 0 <= x <= 365 && (x == 365 ==> q % 4 == 3)
    ensures 4000 * (1461 * q / 4 + x + 1) / 1461001 == q
  {
    var e, f := q / 4, q % 4;
    Quarter(1461 * e, 1461 * f);
    assert 1461 * q == 4 * (1461 * e) + 1461 * f;
    assert 1461001 * q <= 4000 * (1461 * q / 4 + x + 1) < 1461001 * (q + 1);
  }

  /** The day within the March year; it reaches 365 only in years that end with a leap day. */
  lemma DayOfYear(x: Day)
    requires Valid(x)
    ensures 0 <= 367 * MarchMonth(x) / 12 + x.d - 31 <= 365
    ensures 367 * MarchMonth(x) / 12 + x.d - 31 == 365 ==> x.m == 2 && Leap(x.y)
  {
    var m := MarchMonth(x);
    if m == 1 {} else if m == 2 {} else if m == 3 {} else if m == 4 {} else if m == 5 {} else if m == 6 {}
    else if m == 7 {} else if m == 8 {} else if m == 9 {} else if m == 10 {} else if m == 11 {} else {}
  }

  /** `put` inverts `set` on every valid date from year 1 on. */
  lemma RoundTrip(x: Day)
    requires Valid(x)
    ensures Civil(DayNumber(x)) == x
  {
    var c, q := MarchYear(x) / 100, MarchYear(x) % 100;
    var m := MarchMonth(x);
    var day := 367 * m / 12 + x.d - 31;
    CenturyForm(x, c, q);
    DayOfYear(x);
    LeapAtEnd(x, q, day);
    YearForm(q, day);
    MonthForm(x);
    CenturyDivision(c, 1461 * q / 4 + day, q, day);
    CivilForm(DayNumber(x), c + 1, 1461 * q / 4 + day, q, day + 31, m, x.d);
    assert m / 11 == if x.m <= 2 then 1 else 0;
  }

  /** `put`, given the value of each of its quotients. */
  lemma CivilForm(j: int, n: int, l1: int, i: int, l2: int, m: int, d: int)
    requires n >= 0 && l1 >= 0 && i >= 0 && l2 >= 0 && m >= 0
    requires j + 68569 == (146097 * n + 3) / 4 + l1 && 4 * (j + 68569) / 146097 == n
    requires 4000 * (l1 + 1) / 1461001 == i && l2 == l1 - 1461 * i / 4 + 31
    requires 80 * l2 / 2447 == m && d == l2 - 2447 * m / 80
    ensures Civil(j) == Day(100 * (n - 49) + i + m / 11, m + 2 - 12 * (m / 11), d)
  {
  }

  /** The last day of a March year that ends with a leap day: the year of the century is 3 mod 4, and
      the century's last year only every fourth century. */
  lemma LeapAtEnd(x: Day, q: int, day: int)
    requires Valid(x) && q == MarchYear(x) % 100
    requires day == 365 ==> x.m == 2 && Leap(x.y)
    ensures day == 365 ==> q % 4 == 3 && (q == 99 ==> MarchYear(x) / 100 % 4 == 3)
  {
    if day == 365 {
      var a := MarchYear(x);
      assert a + 1 == x.y + 4800;
    }
  }

  lemma CenturyDivision(c: int, day: int, q: int, x: int)
    requires 0 <= c && day == 1461 * q / 4 + x && 0 <= q < 100 && 0 <= x <= 365
    requires x == 365 ==> q % 4 == 3 && (q == 99 ==> c % 4 == 3)
    ensures 4 * ((146097 * (c + 1) + 3) / 4 + day) / 146097 == c + 1
  {
    var e, f := c / 4, c % 4;
    Quarter(36524 * (c + 1) + e + 1, f);
  }

  // ---------------------------------------------------------------- successive days, order

  /** A year's worth of days in the year terms of the day number. */
  lemma YearStep(y: int, t: int, t': int)
    requires y >= 1 && YearTerm(y + 4799, t) && YearTerm(y + 4800, t')
    ensures t' - t == if Leap(y) then 366 else 365
  {
    var z := y + 4800;
    SameRemainders(y, z);
    QuarterStep(z, z / 4, z % 4);
    CenturyStep(z);
    TermStep(z, t, t', z % 4 == 0, z % 100 == 0 && z % 400 != 0);
    LeapParts(y, z % 4 == 0, z % 100 == 0 && z % 400 != 0);
  }

  /** 4800 is a multiple of 400. */
  lemma SameRemainders(y: int, z: int)
    requires z == y + 4800
    ensures z % 4 == y % 4 && z % 100 == y % 100 && z % 400 == y % 400
  {
    SameRemainder4(y);
    SameRemainder100(y);
    SameRemainder400(y);
  }

  lemma SameRemainder4(y: int)
    ensures (y + 4800) % 4 == y % 4
  {
  }

  lemma SameRemainder100(y: int)
    ensures (y + 4800) % 100 == y % 100
  {
  }

  lemma SameRemainder400(y: int)
    ensures (y + 4800) % 400 == y % 400
  {
  }

  lemma TermStep(z: int, t: int, t': int, fourth: bool, lost: bool)
    requires YearTerm(z - 1, t) && YearTerm(z, t')
    requires 1461 * z / 4 - 1461 * (z - 1) / 4 == if fourth then 366 else 365
    requires 3 * ((z + 100) / 100) / 4 - 3 * ((z + 99) / 100) / 4 == if lost then 1 else 0
    ensures t' - t == (if fourth then 366 else 365) - if lost then 1 else 0
  {
  }

  lemma LeapParts(y: int, fourth: bool, lost: bool)
    requires fourth == (y % 4 == 0) && lost == (y % 100 == 0 && y % 400 != 0)
    ensures lost ==> fourth
    ensures Leap(y) <==> fourth && !lost
  {
    if y % 100 == 0 { assert y == 4 * (25 * (y / 100)); }
  }

  lemma QuarterStep(z: int, e: int, f: int)
    requires z == 4 * e + f && 0 <= f < 4
    ensures 1461 * z / 4 - 1461 * (z - 1) / 4 == if f == 0 then 366 else 365
  {
    Quarter(1461 * e, 1461 * f);
    Quarter(1461 * e, 1461 * f - 1461);
  }

  lemma CenturyStep(z: int)
    requires z >= 1
    ensures 3 * ((z + 100) / 100) / 4 - 3 * ((z + 99) / 100) / 4 == if z % 100 == 0 && z % 400 != 0 then 1 else 0
  {
    var k := z / 100;
    var e, f := k / 4, k % 4;
    Quarter(3 * e, 3 * f);
    Quarter(3 * e, 3 * f + 3);
    assert z == 400 * e + 100 * f + z % 100;
  }

  /** Successive calendar days have successive day numbers. */
  lemma NextDayNumber(x: Day)
    requires Valid(x)
    ensures Valid(NextDay(x)) && DayNumber(NextDay(x)) == DayNumber(x) + 1
  {
    var n := NextDay(x);
    var yt, mt := NumberTerms(x);
    var yt', mt' := NumberTerms(n);
    TermsStep(x, n, yt, mt, yt', mt');
  }

  lemma TermsStep(x: Day, n: Day, yt: int, mt: int, yt': int, mt': int)
    requires Valid(x) && n == NextDay(x)
    requires YearTerm(MarchYear(x), yt) && MonthTerm(MarchMonth(x), mt)
    requires YearTerm(MarchYear(n), yt') && MonthTerm(MarchMonth(n), mt')
    ensures n.d + yt' + mt' == x.d + yt + mt + 1
  {
    if x.d == DaysIn(x.y, x.m) {
      if x.m == 2 {
        YearStep(x.y, yt, yt');
      } else {
        MonthStep(x, n, mt, mt');
      }
    }
  }

  lemma MonthStep(x: Day, n: Day, t: int, t': int)
    requires 1 <= x.m <= 12 && x.m != 2 && n.m == (if x.m == 12 then 1 else x.m + 1)
    requires MonthTerm(MarchMonth(x), t) && MonthTerm(MarchMonth(n), t')
    ensures t' - t == DaysIn(x.y, x.m)
  {
    var m := x.m;
    if m == 1 {} else if m == 3 {} else if m == 4 {} else if m == 5 {} else if m == 6 {} else if m == 7 {}
    else if m == 8 {} else if m == 9 {} else if m == 10 {} else if m == 11 {} else {}
  }

  function DaysLater(x: Day, n: nat): Day { if n == 0 then x else NextDay(DaysLater(x, n - 1)) }

  lemma {:induction false} DaysLaterNumber(x: Day, n: nat)
    requires Valid(x)
    ensures Valid(DaysLater(x, n)) && DayNumber(DaysLater(x, n)) == DayNumber(x) + n
  {
    if n > 0 {
      DaysLaterNumber(x, n - 1);
      NextDayNumber(DaysLater(x, n - 1));
    }
  }

  /** `++` and `+= n` walk the calendar: the date shown after adding `n` is `n` days on. */
  lemma AddWalks(x: Day, j: int, n: nat)
    requires Valid(x) && DayNumber(x) == j
    ensures Civil(j + n) == DaysLater(x, n)
  {
    DaysLaterNumber(x, n);
    CivilAt(DaysLater(x, n), j + n);
  }

  lemma CivilAt(x: Day, j: int)
    requires Valid(x) && DayNumber(x) == j
    ensures Civil(j) == x
  {
    RoundTrip(x);
  }

  /** Every day number from the first day of year 1 on belongs to exactly one valid date, the one `put`
      shows. */
  lemma EveryNumber(j: int)
    requires j >= DayNumber(FIRST_DAY)
    ensures Valid(Civil(j)) && DayNumber(Civil(j)) == j
  {
    var c := DayNumbered(FIRST_DAY, DayNumber(FIRST_DAY), j);
  }

  lemma DayNumbered(x: Day, i: int, j: int) returns (c: Day)
    requires Valid(x) && DayNumber(x) == i <= j
    ensures Valid(c) && DayNumber(c) == j && Civil(j) == c
  {
    c := DaysLater(x, j - i);
    DaysLaterNumber(x, j - i);
    CivilAt(c, j);
  }

  /** `--` and `-= n` walk the calendar backwards, down to the first day of year 1. */
  lemma SubtractWalks(x: Day, j: int, n: nat)
    requires Valid(x) && DayNumber(x) == j && j - n >= DayNumber(FIRST_DAY)
    ensures Valid(Civil(j - n)) && DaysLater(Civil(j - n), n) == x
  {
    var e := DayNumbered(FIRST_DAY, DayNumber(FIRST_DAY), j - n);
    WalkBack(e, j - n, n, x);
  }

  lemma WalkBack(e: Day, i: int, n: nat, x: Day)
    requires Valid(e) && Valid(x) && DayNumber(e) == i && DayNumber(x) == i + n
    ensures DaysLater(e, n) == x
  {
    DaysLaterNumber(e, n);
    CivilAt(DaysLater(e, n), i + n);
    CivilAt(x, i + n);
  }

  lemma {:induction false} LaterIsAfter(x: Day, n: nat)
    requires Valid(x) && n > 0
    ensures Before(x, DaysLater(x, n))
  {
    DaysLaterNumber(x, n - 1);
    if n > 1 { LaterIsAfter(x, n - 1); }
  }

  /** Dates compare as their years, months and days do. */
  lemma OrderAgrees(a: Day, b: Day)
    requires Valid(a) && Valid(b)
    ensures DayNumber(a) < DayNumber(b) <==> Before(a, b)
    ensures DayNumber(a) == DayNumber(b) <==> a == b
  {
    var i, j := DayNumber(a), DayNumber(b);
    if i < j {
      BelowIsBefore(a, i, b, j);
    } else if j < i {
      BelowIsBefore(b, j, a, i);
    } else {
      CivilAt(a, i);
      CivilAt(b, i);
    }
  }

  lemma BelowIsBefore(a: Day, i: int, b: Day, j: int)
    requires Valid(a) && Valid(b) && DayNumber(a) == i < j == DayNumber(b)
    ensures Before(a, b)
  {
    DaysLaterNumber(a, j - i);
    CivilAt(DaysLater(a, j - i), j);
    CivilAt(b, j);
    LaterIsAfter(a, j - i);
  }

  // ---------------------------------------------------------------- which dates are taken

  /** The standard's epoch. */
  lemma Epoch()
    ensures DayNumber(Day(2000, 1, 1)) == 2451545
  {
  }

  /** Before year 1 there is no year 0, but the numbering leaves out two years, not one: the last day of year -1 has
      a number 732, not one, below that of the first day of year 1. */
  lemma YearsSkipped()
    ensures DayNumber(FIRST_DAY) == Julian(-1, 12, 31) + 732
  {
  }

  /** A day beyond the end of its month is a day of the next month. */
  lemma OverflowDay(y: int, m: int, d: int)
    requires y >= 1 && 1 <= m <= 12 && 1 <= d <= 31
    ensures Valid(DaysLater(Day(y, m, 1), d - 1)) && Julian(y, m, d) == DayNumber(DaysLater(Day(y, m, 1), d - 1))
  {
    var x := Day(y, m, 1);
    DaysLaterNumber(x, d - 1);
    NumberForm(x);
    NumberForm(Day(y, m, d));
  }

  /** The date whose number is the invalid mark itself. */
  const LAST := Day(5874898, 6, 3)

  predicate OutOfRange(y: int, m: int, d: int) { y == 0 || m < 1 || m > 12 || d < 1 || d > 31 }

  /** A date gets the invalid mark exactly when its month or day is out of range or there is no such year, or when
      it is the one whose number happens to be the mark. */
  lemma InvalidExactly(y: int, m: int, d: int)
    ensures Julian(y, m, d) == INVALID <==> OutOfRange(y, m, d) || Day(y, m, d) == LAST
  {
    if !OutOfRange(y, m, d) {
      if y < 0 {
        EarlyYear(y, m, d);
      } else {
        OnlyLast(y, m, d);
      }
    }
  }

  lemma LastNumber()
    ensures Valid(LAST) && DayNumber(LAST) == INVALID
  {
    NumberForm(LAST);
  }

  lemma EarlyYear(y: int, m: int, d: int)
    requires y < 0 && 1 <= m <= 12 && 1 <= d <= 31
    ensures Julian(y, m, d) < INVALID
  {
    var c := Quot(m - 14, 12);
    assert -1 <= c <= 0;
    var a := y - 1 + 4800 + c;
    QuotBelow(1461 * a, 4, 1461 * 4800);
    QuotBelow(367 * (m - 2 - c * 12), 12, 367 * 22);
    CenturyAbove(a, y);
  }

  lemma QuotBelow(a: int, b: int, n: nat)
    requires (b == 4 || b == 12) && a <= n
    ensures Quot(a, b) <= n
  {
    if b == 4 { assert Quot(a, 4) <= n; } else { assert Quot(a, 12) <= n; }
  }

  lemma CenturyAbove(a: int, y: int)
    requires y < 0 && a <= y + 4800
    ensures Quot(1461 * a, 4) - Quot(3 * Quot(a + 100, 100), 4) <= 1461 * 4800
  {
    if a >= 0 {
      assert Quot(a + 100, 100) >= 0;
      QuotBelow(1461 * a, 4, 1461 * 4800);
    } else {
      var n := -a;
      assert Quot(1461 * a, 4) == -(1461 * n / 4);
      if a + 100 < 0 {
        var k := (-(a + 100)) / 100;
        assert Quot(a + 100, 100) == -k && k <= n;
      }
    }
  }

  lemma OnlyLast(y: int, m: int, d: int)
    requires y >= 1 && 1 <= m <= 12 && 1 <= d <= 31
    ensures Julian(y, m, d) == INVALID <==> Day(y, m, d) == LAST
  {
    LastNumber();
    OverflowDay(y, m, d);
    if Julian(y, m, d) == INVALID {
      var x := DaysLater(Day(y, m, 1), d - 1);
      OrderAgrees(x, LAST);
      SameMonth(y, m, d - 1);
    }
  }

  /** Up to 30 days after the first of a month is a day of that month, or one of the first three of the next. */
  lemma {:induction false} SameMonth(y: int, m: int, n: nat)
    requires y >= 1 && 1 <= m <= 12 && n <= 30
    ensures var x := DaysLater(Day(y, m, 1), n);
      if n < DaysIn(y, m) then x == Day(y, m, n + 1)
      else x == Day(if m < 12 then y else y + 1, if m < 12 then m + 1 else 1, n + 1 - DaysIn(y, m))
  {
    if n > 0 { SameMonth(y, m, n - 1); }
  }
}
