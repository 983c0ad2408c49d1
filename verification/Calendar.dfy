/** Calendar arithmetic of the FTP listing parser: day numbers, the current year, and the guess of a
    year that a listing leaves out. */
module Calendar {

  // ---------------------------------------------------------------- the Gregorian calendar

  predicate Leap(y: int) {
    y % 4 == 0 && (y % 100 != 0 || y % 400 == 0)
  }

  function YearLength(y: int): int {
    if Leap(y) then 366 else 365
  }

  /** Months are counted from 0, as in the program. */
  function MonthLength(y: int, month: int): int
    requires 0 <= month < 12
  {
    if month == 1 then (if Leap(y) then 29 else 28)
    else if month in [3, 5, 8, 10] then 30
    else 31
  }

  /** Days from the first of January 1970 to the first of January of a year. */
  function Jan1(y: int): int
    decreases if y < 1970 then 1970 - y else y - 1970
  {
    if y > 1970 then Jan1(y - 1) + YearLength(y - 1)
    else if y < 1970 then Jan1(y + 1) - YearLength(y)
    else 0
  }

  function DaysBefore(y: int, month: int): int
    requires 0 <= month < 12
  {
    if month == 0 then 0 else DaysBefore(y, month - 1) + MonthLength(y, month - 1)
  }

  predicate ValidDate(y: int, month: int, mday: int) {
    0 <= month < 12 && 1 <= mday <= MonthLength(y, month)
  }

  /** Days from the first of January 1970 to a date. */
  function DayNumber(y: int, month: int, mday: int): int
    requires ValidDate(y, month, mday)
  {
    Jan1(y) + DaysBefore(y, month) + mday - 1
  }

  // ---------------------------------------------------------------- closed forms

  /** Leap days of the 4-, 100- and 400-year cycles up to and including a year. */
  function LeapDays(y: int): int {
    y / 4 - y / 100 + y / 400
  }

  lemma {:induction false} LeapStep(y: int)
    ensures LeapDays(y) - LeapDays(y - 1) == if Leap(y) then 1 else 0
  {
    DivStep(y, 4);
    DivStep(y, 100);
    DivStep(y, 400);
  }

  lemma DivStep(y: int, k: int)
    requires k == 4 || k == 100 || k == 400
    ensures y / k - (y - 1) / k == if y % k == 0 then 1 else 0
  {
  }

  lemma {:induction false} Jan1Closed(y: int)
    ensures Jan1(y) == 365 * (y - 1) + LeapDays(y - 1) - 719162
    decreases if y < 1970 then 1970 - y else y - 1970
  {
    if y > 1970 {
      Jan1Closed(y - 1);
      LeapStep(y - 1);
    } else if y < 1970 {
      Jan1Closed(y + 1);
      LeapStep(y);
    }
  }

  /** The position of a date in a year that starts in March: months have 30.6 days on average. */
  lemma {:induction false} MarchDay(y: int, month: int, mday: int)
    requires ValidDate(y, month, mday)
    ensures month >= 2 ==>
              ((mday - 1) * 10 + 5 + 306 * (month - 2)) / 10 == DaysBefore(y, month) + mday - 1 - DaysBefore(y, 2)
    ensures month < 2 ==>
              ((mday - 1) * 10 + 5 + 306 * (month + 10)) / 10 == 306 + DaysBefore(y, month) + mday - 1
  {
    MonthTable(y);
    var m := if month >= 2 then month - 2 else month + 10;
    assert ((mday - 1) * 10 + 5 + 306 * m) / 10 == mday - 1 + (5 + 306 * m) / 10;
  }

  lemma {:induction false} MonthTable(y: int)
    ensures DaysBefore(y, 0) == 0 && DaysBefore(y, 1) == 31
    ensures DaysBefore(y, 2) == if Leap(y) then 60 else 59
    ensures DaysBefore(y, 3) == DaysBefore(y, 2) + 31 && DaysBefore(y, 4) == DaysBefore(y, 2) + 61
    ensures DaysBefore(y, 5) == DaysBefore(y, 2) + 92 && DaysBefore(y, 6) == DaysBefore(y, 2) + 122
    ensures DaysBefore(y, 7) == DaysBefore(y, 2) + 153 && DaysBefore(y, 8) == DaysBefore(y, 2) + 184
    ensures DaysBefore(y, 9) == DaysBefore(y, 2) + 214 && DaysBefore(y, 10) == DaysBefore(y, 2) + 245
    ensures DaysBefore(y, 11) == DaysBefore(y, 2) + 275
  {
    assert DaysBefore(y, 0) == 0;
  }

  /** Some days whose numbers are known: the epoch, leap days, and some that are not there. */
  lemma {:induction false} KnownDays()
    ensures ValidDate(1970, 0, 1) && DayNumber(1970, 0, 1) == 0
    ensures ValidDate(1970, 11, 31) && DayNumber(1970, 11, 31) == 364
    ensures ValidDate(2000, 1, 29) && DayNumber(2000, 1, 29) == 11016
    ensures ValidDate(2011, 5, 30) && DayNumber(2011, 5, 30) == 15155
    ensures ValidDate(2100, 2, 1) && DayNumber(2100, 2, 1) == 47541
    ensures !ValidDate(1900, 1, 29) && !ValidDate(2100, 1, 29) && ValidDate(2012, 1, 29)
  {
    hide Jan1, DaysBefore;
    Jan1Closed(1970);
    Jan1Closed(2000);
    Jan1Closed(2011);
    Jan1Closed(2100);
    MonthTable(1970);
    MonthTable(2000);
    MonthTable(2011);
    MonthTable(2100);
  }

  /** The cycles of the calendar: 1461 days in 4 years, 36524 in 100, 146097 in 400. */
  lemma {:induction false} Cycles(y: int)
    ensures y / 4 / 25 == y / 100 && y / 100 / 4 == y / 400
    ensures 365 * (y % 4) + 1461 * (y / 4 % 25) + 36524 * (y / 100 % 4) + 146097 * (y / 400) == 365 * y + LeapDays(y)
  {
    var a, b := y / 4, y / 100;
    assert y == 4 * a + y % 4 && a == 25 * (a / 25) + a % 25 && b == 4 * (b / 4) + b % 4;
    assert a / 25 == b && b / 4 == y / 400;
  }

  // ---------------------------------------------------------------- totai

  /** Division and remainder of C, which truncate toward zero; here for a positive divisor. */
  function Quot(a: int, b: int): int
    requires b > 0
  {
    if a >= 0 then a / b else -(-a / b)
  }

  function Rem(a: int, b: int): int
    requires b > 0
  {
    a - b * Quot(a, b)
  }

  /** The year that starts in March. */
  function MarchYearOf(year: int, month: int): int {
    if month >= 2 then year else year - 1
  }

  /** The dates that the program gets right. From March of the year 0 on, it is all of them. Before that,
      where its division rounds up, it is those of the years from March of a leap year on and those 29ths
      of February that do not come four years after the start of a century without a leap day. */
  predicate GetsRight(year: int, month: int, mday: int) {
    var y := MarchYearOf(year, month);
    || y >= 0
    || (if month == 1 && mday == 29 then (year - 4) % 100 != 0 || (year - 4) % 400 == 0 else Leap(y))
  }

  /** Seconds from the start of 1970 to the start of a date, or, for the dates that it gets wrong, to the
      day after. */
  method Totai(year: int, month: int, mday: int) returns (result: int)
    requires ValidDate(year, month, mday)
    ensures result == 86400 * (DayNumber(year, month, mday) + if GetsRight(year, month, mday) then 0 else 1)
  {
    hide DayNumber, Quot, Rem, GetsRight;
    var y, m := year, month;
    if m >= 2 { m := m - 2; } else { m := m + 10; y := y - 1; }
    ghost var y0 := y;
    result := (mday - 1) * 10 + 5 + 306 * m;
    Tenth(result);
    result := Quot(result, 10);
    ghost var day := result;
    DayInMarchYear(year, month, mday, y0, day);
    if result == 365 { y := y - 3; result := 1460; } else { result := result + 365 * Rem(y, 4); }
    y := Quot(y, 4);
    result := result + 1461 * Rem(y, 25);
    y := Quot(y, 25);
    if result == 36524 { y := y - 3; result := 146096; } else { result := result + 36524 * Rem(y, 4); }
    y := Quot(y, 4);
    result := result + 146097 * (y - 5);
    result := result + 11017;
    assert result == Sum(y0, day) - 719468;
    SumIs(year, month, mday, y0, day);
    result := result * 86400;
  }

  lemma Tenth(n: int)
    requires n >= 0
    ensures Quot(n, 10) == n / 10
  {
  }

  lemma {:induction false} SumIs(year: int, month: int, mday: int, y: int, day: int)
    requires ValidDate(year, month, mday) && y == MarchYearOf(year, month)
    requires day == ((mday - 1) * 10 + 5 + 306 * (if month >= 2 then month - 2 else month + 10)) / 10
    ensures Sum(y, day) - 719468 == DayNumber(year, month, mday) + if GetsRight(year, month, mday) then 0 else 1
  {
    hide DayNumber, Sum;
    DayInMarchYear(year, month, mday, y, day);
    LeapDayIs(year, month, mday, y, day);
    if y >= 0 {
      DaysForward(y, day);
    } else if day < 365 {
      DaysBackward(y, day);
    } else {
      LeapDaysBackward(y);
    }
  }

  /** What the divisions and remainders of the program come to. */
  function Sum(y: int, day: int): int {
    var y1, r1 := if day == 365 then y - 3 else y, if day == 365 then 1460 else day + 365 * Rem(y, 4);
    var y2 := Quot(y1, 4);
    var r2, y3 := r1 + 1461 * Rem(y2, 25), Quot(y2, 25);
    if r2 == 36524 then 146096 + 146097 * Quot(y3 - 3, 4) else r2 + 36524 * Rem(y3, 4) + 146097 * Quot(y3, 4)
  }

  lemma {:induction false} DaysForward(y: int, day: int)
    requires y >= 0 && 0 <= day <= 365 && (day == 365 ==> Leap(y + 1))
    ensures Sum(y, day) == day + 365 * y + LeapDays(y)
  {
    CenturyDay(y, day);
    Cycles(y);
    assert day == 365 ==> (y - 3) / 4 == y / 4;
  }

  lemma {:induction false} DaysBackward(y: int, day: int)
    requires y < 0 && 0 <= day < 365
    ensures Sum(y, day) == day + 365 * y + LeapDays(y) + if Leap(y) then 0 else 1
  {
    var z := -y;
    Cycles(z);
    LeapMirror(z);
    assert Quot(y, 4) == -(z / 4) && Rem(y, 4) == -(z % 4);
    Mirrored(z / 4, 25);
    Mirrored(z / 4 / 25, 4);
    LeapEven(z);
  }

  lemma LeapEven(z: int)
    ensures Leap(-z) <==> Leap(z)
  {
    Opposite(z, 4);
    Opposite(z, 100);
    Opposite(z, 400);
  }

  lemma Opposite(z: int, k: int)
    requires k == 4 || k == 100 || k == 400
    ensures (-z) % k == 0 <==> z % k == 0
  {
  }

  lemma Mirrored(z: int, b: int)
    requires z >= 0 && b > 0
    ensures Quot(-z, b) == -(z / b) && Rem(-z, b) == -(z % b)
  {
  }

  lemma {:induction false} LeapMirror(z: int)
    ensures LeapDays(-z) + LeapDays(z) == if Leap(z) then 0 else -1
  {
    DivMirror(z, 4);
    DivMirror(z, 100);
    DivMirror(z, 400);
  }

  lemma DivMirror(z: int, k: int)
    requires k == 4 || k == 100 || k == 400
    ensures (-z) / k + z / k == if z % k == 0 then 0 else -1
  {
  }

  /** A 29th of February `w` leap years before the one of the year 4. */
  lemma {:induction false} LeapSum(w: int)
    requires w > 0
    ensures Sum(3 - 4 * w, 365) == 1460 - 1461 * w + w / 25 - w / 100
  {
    Mirrored(4 * w, 4);
    Mirrored(w, 25);
    Mirrored(w / 25, 4);
    assert 4 * w / 4 == w && w / 25 / 4 == w / 100;
    assert w == 25 * (w / 25) + w % 25 && w / 25 == 4 * (w / 100) + w / 25 % 4;
  }

  lemma {:induction false} LeapDaysOf(w: int)
    ensures LeapDays(3 - 4 * w) == -w + w / 25 + (if w % 25 == 0 then 0 else 1) - w / 100
                                   - (if w % 100 == 0 then 0 else 1)
  {
    BelowCentury(w / 25, w % 25);
    BelowFourCenturies(w / 100, w % 100);
    assert w == 25 * (w / 25) + w % 25 && w == 100 * (w / 100) + w % 100;
  }

  lemma BelowCentury(a: int, b: int)
    requires 0 <= b < 25
    ensures (3 - 4 * (25 * a + b)) / 100 == -a - if b == 0 then 0 else 1
  {
  }

  lemma BelowFourCenturies(a: int, b: int)
    requires 0 <= b < 100
    ensures (3 - 4 * (100 * a + b)) / 400 == -a - if b == 0 then 0 else 1
  {
  }

  lemma {:induction false} LeapDaysBackward(y: int)
    requires y < 0 && Leap(y + 1)
    ensures Sum(y, 365) == 365 + 365 * y + LeapDays(y) + if (y - 3) % 100 == 0 && (y - 3) % 400 != 0 then 1 else 0
  {
    var w := (3 - y) / 4;
    assert y == 3 - 4 * w;
    hide Sum, LeapDays, Leap;
    LeapSum(w);
    LeapDaysOf(w);
    FourTimes(w);
  }

  lemma FourTimes(w: int)
    ensures (-4 * w) % 100 == 0 <==> w % 25 == 0
    ensures (-4 * w) % 400 == 0 <==> w % 100 == 0
  {
    FourInCentury(w / 25, w % 25);
    FourInFourCenturies(w / 100, w % 100);
    assert w == 25 * (w / 25) + w % 25 && w == 100 * (w / 100) + w % 100;
  }

  lemma FourInCentury(a: int, b: int)
    requires 0 <= b < 25
    ensures (-4 * (25 * a + b)) % 100 == 0 <==> b == 0
  {
    assert -4 * (25 * a + b) == 100 * (-a - 1) + (100 - 4 * b);
  }

  lemma FourInFourCenturies(a: int, b: int)
    requires 0 <= b < 100
    ensures (-4 * (100 * a + b)) % 400 == 0 <==> b == 0
  {
    assert -4 * (100 * a + b) == 400 * (-a - 1) + (400 - 4 * b);
  }

  lemma {:induction false} LeapDayIs(year: int, month: int, mday: int, y: int, day: int)
    requires ValidDate(year, month, mday) && y == MarchYearOf(year, month)
    requires day == ((mday - 1) * 10 + 5 + 306 * (if month >= 2 then month - 2 else month + 10)) / 10
    ensures day == 365 <==> month == 1 && mday == 29
  {
    MarchDay(year, month, mday);
    MonthTable(year);
  }

  /** A date as a day of a year that starts in March; the last day of such a year occurs only before
      a leap year's March. */
  lemma {:induction false} DayInMarchYear(year: int, month: int, mday: int, y: int, day: int)
    requires ValidDate(year, month, mday)
    requires y == if month >= 2 then year else year - 1
    requires day == ((mday - 1) * 10 + 5 + 306 * (if month >= 2 then month - 2 else month + 10)) / 10
    ensures 0 <= day <= 365 && (day == 365 ==> Leap(y + 1))
    ensures DayNumber(year, month, mday) == day + 365 * y + LeapDays(y) - 719468
  {
    MarchDay(year, month, mday);
    MonthTable(year);
    Jan1Closed(year);
    LeapStep(year);
  }

  /** Where the second exception of the cycles strikes. */
  lemma {:induction false} CenturyDay(y: int, day: int)
    requires 0 <= day <= 365 && (day == 365 ==> Leap(y + 1))
    ensures day + 365 * (y % 4) + 1461 * (y / 4 % 25) == 36524 ==> day == 365 && y / 100 % 4 == 3
    ensures day == 365 ==> y % 4 == 3
  {
    if day + 365 * (y % 4) + 1461 * (y / 4 % 25) == 36524 {
      assert y / 4 % 25 == 24 && y % 4 == 3 && day == 365;
      assert (y + 1) % 100 == 0 by {
        var a := y / 4;
        assert y + 1 == 4 * (a + 1) && a + 1 == 25 * (a / 25 + 1);
      }
      assert (y + 1) % 400 == 0;
    }
  }

  // ---------------------------------------------------------------- initnow

  /** The year that a number of seconds since the start of 1970 falls in, be it before 1970 or after. */
  method CurrentYear(now: int) returns (year: int)
    ensures 86400 * Jan1(year) <= now < 86400 * Jan1(year + 1)
  {
    hide Jan1;
    var day := Quot(now, 86400);
    if Rem(now, 86400) < 0 { day := day - 1; }
    ghost var day0 := day;
    day := day - 11017;
    year := 5 + Quot(day, 146097);
    day := Rem(day, 146097);
    if day < 0 { day := day + 146097; year := year - 1; }
    ghost var a, rest := year, day;
    FloorDay(now, day0, a, rest);
    year := year * 4;
    if day == 146096 { year := year + 3; day := 36524; }
    else { year := year + Quot(day, 36524); day := Rem(day, 36524); }
    ghost var b, century := year - 4 * a, day;
    CenturyOf(rest, b, century);
    year := year * 25;
    year := year + Quot(day, 1461);
    day := Rem(day, 1461);
    ghost var c, cycle := year - 25 * (4 * a + b), day;
    assert century == 1461 * c + cycle && 0 <= c <= 24 && 0 <= cycle <= 1460;
    year := year * 4;
    if day == 1460 { year := year + 3; day := 365; } else { year := year + Quot(day, 365); day := Rem(day, 365); }
    ghost var d, doy := year - 4 * (25 * (4 * a + b) + c), day;
    YearOf(cycle, d, doy);
    day := day * 10;
    if Quot(day + 5, 306) >= 10 { year := year + 1; }
    assert Quot(doy * 10 + 5, 306) >= 10 <==> doy >= 306;
    assert year == 400 * a + 100 * b + 4 * c + d + if doy >= 306 then 1 else 0;
    MarchYear(a, b, c, d, doy, day0);
  }

  lemma FloorDay(now: int, day0: int, a: int, rest: int)
    requires day0 == Quot(now, 86400) - if Rem(now, 86400) < 0 then 1 else 0
    requires var day := day0 - 11017;
             var low := Rem(day, 146097) < 0;
             a == 5 + Quot(day, 146097) - (if low then 1 else 0) && rest == Rem(day, 146097) + if low then 146097 else 0
    ensures 86400 * day0 <= now < 86400 * (day0 + 1)
    ensures day0 - 11017 == 146097 * (a - 5) + rest && 0 <= rest < 146097
  {
  }

  lemma CenturyOf(rest: int, b: int, century: int)
    requires 0 <= rest < 146097
    requires if rest == 146096 then b == 3 && century == 36524 else b == Quot(rest, 36524)
                                                                    && century == Rem(rest, 36524)
    ensures rest == 36524 * b + century && 0 <= b <= 3 && 0 <= century <= 36524 && (century == 36524 ==> b == 3)
  {
  }

  lemma YearOf(cycle: int, d: int, doy: int)
    requires 0 <= cycle <= 1460
    requires if cycle == 1460 then d == 3 && doy == 365 else d == Quot(cycle, 365) && doy == Rem(cycle, 365)
    ensures cycle == 365 * d + doy && 0 <= d <= 3 && 0 <= doy <= 365 && (doy == 365 ==> d == 3)
  {
  }

  /** A day given by cycle, century, 4-year and year counts from March of the year 0 on. */
  lemma {:induction false} MarchYear(a: int, b: int, c: int, d: int, doy: int, day0: int)
    requires 0 <= b <= 3 && 0 <= c <= 24 && 0 <= d <= 3 && 0 <= doy <= 365
    requires doy == 365 ==> d == 3 && (c == 24 ==> b == 3)
    requires day0 - 11017 == 146097 * (a - 5) + 36524 * b + 1461 * c + 365 * d + doy
    ensures var y := 400 * a + 100 * b + 4 * c + d;
            var year := if doy >= 306 then y + 1 else y;
            Jan1(year) <= day0 < Jan1(year + 1)
  {
    var y := 400 * a + 100 * b + 4 * c + d;
    Counts(a, b, c, d);
    Jan1Closed(y);
    Jan1Closed(y + 1);
    Jan1Closed(y + 2);
    LeapStep(y);
    LeapStep(y + 1);
    if doy == 365 {
      LeapAt(a, b, c);
    }
  }

  lemma {:induction false} LeapAt(a: int, b: int, c: int)
    requires 0 <= b <= 3 && 0 <= c <= 24 && (c == 24 ==> b == 3)
    ensures Leap(400 * a + 100 * b + 4 * c + 4)
  {
    var y := 400 * a + 100 * b + 4 * c + 4;
    assert y == 4 * (100 * a + 25 * b + c + 1);
    if c == 24 {
      assert y == 400 * (a + 1);
    } else {
      assert y == 100 * (4 * a + b) + (4 * c + 4);
      Remainder(4 * a + b, 4 * c + 4);
    }
  }

  lemma Remainder(q: int, r: int)
    requires 0 < r < 100
    ensures (100 * q + r) % 100 != 0
  {
  }

  lemma {:induction false} Counts(a: int, b: int, c: int, d: int)
    requires 0 <= b <= 3 && 0 <= c <= 24 && 0 <= d <= 3
    ensures var y := 400 * a + 100 * b + 4 * c + d;
            365 * y + LeapDays(y) == 146097 * a + 36524 * b + 1461 * c + 365 * d
  {
    var y := 400 * a + 100 * b + 4 * c + d;
    assert y / 4 == 100 * a + 25 * b + c;
    assert y / 100 == 4 * a + b;
    assert y / 400 == a;
  }

  /** The year of a date is the year that its first second falls in: CurrentYear inverts Totai. */
  lemma {:induction false} YearOfDate(y: int, month: int, mday: int)
    requires ValidDate(y, month, mday)
    ensures Jan1(y) <= DayNumber(y, month, mday) < Jan1(y + 1)
    ensures forall year :: Jan1(year) <= DayNumber(y, month, mday) < Jan1(year + 1) ==> year == y
  {
    MonthTable(y);
    assert Jan1(y + 1) == Jan1(y) + YearLength(y) by {
      Jan1Closed(y);
      Jan1Closed(y + 1);
      LeapStep(y);
    }
    forall year | Jan1(year) <= DayNumber(y, month, mday) < Jan1(year + 1)
      ensures year == y
    {
      if year < y {
        Jan1Increases(year + 1, y);
      } else if year > y {
        Jan1Increases(y + 1, year);
      }
    }
  }

  lemma {:induction false} Jan1Increases(a: int, b: int)
    requires a <= b
    ensures Jan1(a) + 365 * (b - a) <= Jan1(b) <= Jan1(a) + 366 * (b - a)
    decreases b - a
  {
    if a < b {
      Jan1Increases(a, b - 1);
      Jan1Closed(b);
      Jan1Closed(b - 1);
      LeapStep(b - 1);
    }
  }

  // ---------------------------------------------------------------- guesstai

  /** Dates that exist in every year: all but the 29th of February. */
  predicate YearlyDate(month: int, mday: int) {
    0 <= month < 12 && 1 <= mday <= MonthLength(2001, month)
  }

  lemma YearlyValid(y: int, month: int, mday: int)
    requires YearlyDate(month, mday)
    ensures ValidDate(y, month, mday)
  {
  }

  /** From one year to the next, a date moves by 365 or 366 days. */
  lemma {:induction false} NextYear(y: int, month: int, mday: int)
    requires ValidDate(y, month, mday) && ValidDate(y + 1, month, mday)
    ensures 365 <= DayNumber(y + 1, month, mday) - DayNumber(y, month, mday) <= 366
  {
    MonthTable(y);
    MonthTable(y + 1);
    Jan1Closed(y);
    Jan1Closed(y + 1);
    LeapStep(y);
  }

  /** The time a listing means when it gives month and day only: no more than 350 days ago, at most
      16 days ahead, found among last year, this year and the next. */
  method GuessTai(now: int, month: int, mday: int) returns (t: int, tries: int)
    requires now >= 86400 * Jan1(2) && YearlyDate(month, mday)
    ensures now - t < 350 * 86400 && t - now <= 16 * 86400
    ensures exists y :: ValidDate(y, month, mday) && t == 86400 * DayNumber(y, month, mday)
    ensures 1 <= tries <= 3
  {
    var currentyear := CurrentYear(now);
    PositiveYear(now, currentyear);
    var year := currentyear - 1;
    tries := 0;
    t := 0;
    while year < currentyear + 100
      invariant currentyear - 1 <= year <= currentyear + 1
      invariant tries == year - (currentyear - 1)
      invariant year > currentyear - 1 ==>
                  ValidDate(year - 1, month, mday) && now - 86400 * DayNumber(year - 1, month, mday) >= 350 * 86400
      decreases currentyear + 100 - year
    {
      YearlyValid(year, month, mday);
      t := Totai(year, month, mday);
      tries := tries + 1;
      YearOfDate(year, month, mday);
      if now - t < 350 * 86400 {
        if year > currentyear - 1 {
          NextYear(year - 1, month, mday);
        }
        return;
      }
      year := year + 1;
    }
  }

  lemma {:induction false} PositiveYear(now: int, year: int)
    requires now >= 86400 * Jan1(2) && now < 86400 * Jan1(year + 1)
    ensures year >= 2
  {
    if year + 1 < 2 {
      Jan1Increases(year + 1, 2);
    }
  }
}
