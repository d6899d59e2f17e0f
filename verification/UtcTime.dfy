// Unix seconds to an RFC 3339 UTC time stamp without a date library
// (crates/odin-say/src/timeutil.rs), proved against the calendar itself: the leap-year rule, the
// month lengths and the sum of the days before a date.

module UtcTime {
  import opened Wrappers
  import opened Text
  import opened Log

  datatype Date = Date(year: int, month: int, day: int)

  // ------------------------------------------------------------------ the calendar

  predicate Leap(y: int) {
    y % 4 == 0 && (y % 100 != 0 || y % 400 == 0)
  }

  function MonthLength(y: int, m: int): int {
    if m == 2 then (if Leap(y) then 29 else 28) else if m in {4, 6, 9, 11} then 30 else 31
  }

  predicate ValidDate(d: Date) {
    d.year >= 1970 && 1 <= d.month <= 12 && 1 <= d.day <= MonthLength(d.year, d.month)
  }

  /** Days from 1970-01-01 to January 1 of the year, year by year. */
  function DaysBeforeYear(y: int): int
    requires y >= 1970
  {
    if y == 1970 then 0 else DaysBeforeYear(y - 1) + if Leap(y - 1) then 366 else 365
  }

  function DaysBeforeMonth(y: int, m: int): int
    requires 1 <= m <= 12
    decreases m
  {
    if m == 1 then 0 else DaysBeforeMonth(y, m - 1) + MonthLength(y, m - 1)
  }

  function DayNumber(d: Date): int
    requires ValidDate(d)
  {
    DaysBeforeYear(d.year) + DaysBeforeMonth(d.year, d.month) + d.day - 1
  }

  // ------------------------------------------------------------------ the program's arithmetic

  function YearOfEra(doe: int): int {
    (doe - doe / 1460 + doe / 36524 - doe / 146096) / 365
  }

  function DayOfYear(doe: int, yoe: int): int {
    doe - (365 * yoe + yoe / 4 - yoe / 100)
  }

  /** From a year that starts on March 1 and a day of it to the date. */
  function FromMarch(y: int, doy: int): Date {
    var mp := (5 * doy + 2) / 153;
    var day := doy - (153 * mp + 2) / 5 + 1;
    var month := if mp < 10 then mp + 3 else mp - 9;
    Date(if month <= 2 then y + 1 else y, month, day)
  }

  /** The date part of format_utc. Every quotient is of non-negative numbers. */
  function CivilFromDays(days: nat): Date {
    var z := days + 719468;
    var era, doe := z / 146097, z % 146097;
    var yoe := YearOfEra(doe);
    FromMarch(yoe + era * 400, DayOfYear(doe, yoe))
  }

  function Digit(n: int): char
    requires 0 <= n <= 9
  {
    "0123456789"[n]
  }

  /** A decimal number, zero-padded to at least `width` digits. */
  function Padded(n: nat, width: nat): string
    decreases n, width
  {
    if n == 0 && width == 0 then ""
    else Padded(n / 10, if width == 0 then 0 else width - 1) + [Digit(n % 10)]
  }

  function DateText(d: Date): string
    requires d.year >= 0 && d.month >= 0 && d.day >= 0
  {
    Padded(d.year, 4) + "-" + Padded(d.month, 2) + "-" + Padded(d.day, 2)
  }

  function ClockText(hours: nat, minutes: nat, seconds: nat): string {
    Padded(hours, 2) + ":" + Padded(minutes, 2) + ":" + Padded(seconds, 2)
  }

  function SecondOfDayText(sod: nat): string {
    ClockText(sod / 3600, sod % 3600 / 60, sod % 60)
  }

  /** format_utc */
  function FormatUtc(seconds: nat): string {
    CivilIsCalendar(seconds / 86400);
    DateText(CivilFromDays(seconds / 86400)) + "T" + SecondOfDayText(seconds % 86400) + "Z"
  }

  // ------------------------------------------------------------------ years

  /** Leap days in the years 1 to y. */
  function LeapDays(y: int): int {
    y / 4 - y / 100 + y / 400
  }

  lemma LeapDaysStep(y: int)
    requires y >= 1
    ensures LeapDays(y) == LeapDays(y - 1) + if Leap(y) then 1 else 0
  {
    QuotientStep(y, 4);
    QuotientStep(y, 100);
    QuotientStep(y, 400);
  }

  lemma QuotientStep(y: int, k: int)
    requires y >= 1 && (k == 4 || k == 100 || k == 400)
    ensures y / k == (y - 1) / k + if y % k == 0 then 1 else 0
  {
  }

  lemma {:induction false} DaysBeforeYearClosed(y: int)
    requires y >= 1970
    ensures DaysBeforeYear(y) == 365 * (y - 1970) + LeapDays(y - 1) - 477
  {
    if y > 1970 {
      DaysBeforeYearClosed(y - 1);
      LeapDaysStep(y - 1);
    }
  }

  /** Days of the era before its n-th year; years here start on March 1. */
  function EraDays(n: int): int {
    365 * n + n / 4 - n / 100
  }

  /** Whether the n-th year of the era ends on a February 29. */
  predicate EndsLeap(n: int) {
    (n + 1) % 4 == 0 && ((n + 1) % 100 != 0 || n == 399)
  }

  lemma EraYearLength(n: int)
    requires 0 <= n <= 399
    ensures EraDays(n + 1) == EraDays(n) + (if EndsLeap(n) then 366 else 365) - if n == 399 then 1 else 0
  {
    QuotientStep(n + 1, 4);
    QuotientStep(n + 1, 100);
  }

  /** Some year of the era contains the day. */
  lemma {:induction false} EraYearExists(doe: int, upTo: int) returns (n: int)
    requires 0 <= upTo <= 399 && 0 <= doe < EraDays(upTo) + if EndsLeap(upTo) then 366 else 365
    ensures 0 <= n <= upTo
    ensures EraDays(n) <= doe < EraDays(n) + if EndsLeap(n) then 366 else 365
  {
    if EraDays(upTo) <= doe {
      n := upTo;
    } else {
      EraYearLength(upTo - 1);
      n := EraYearExists(doe, upTo - 1);
    }
  }

  /** The quotient formula names that year: with n = 100c + 4q + a, each of the three corrections
      takes off exactly the leap days before it, except for a harmless one near a leap day. */
  lemma YearOfEraIs(doe: int, n: int)
    requires 0 <= n <= 399 && EraDays(n) <= doe < EraDays(n) + if EndsLeap(n) then 366 else 365
    ensures YearOfEra(doe) == n
  {
    var c, m := n / 100, n % 100;
    var q, a := m / 4, m % 4;
    var t := doe - EraDays(n);
    EraSplit(n, c, q, a);
    LeapOnlyLast(n, c, q, a);
    var e := if 24 * c + q + 365 * a + t >= 1460 then 1 else 0;
    var f := if doe == 146096 then 1 else 0;
    assert doe / 1460 == 25 * c + q + e;
    assert doe / 36524 == c + f && doe / 146096 == f by { Centuries(doe, c, q, a, t); }
    assert doe - doe / 1460 + doe / 36524 - doe / 146096 == 365 * n + (t - e);
  }

  lemma EraSplit(n: int, c: int, q: int, a: int)
    requires 0 <= n <= 399 && c == n / 100 && q == n % 100 / 4 && a == n % 4 == n % 100 % 4
    ensures n == 100 * c + 4 * q + a && 0 <= c <= 3 && 0 <= q <= 24 && 0 <= a <= 3
    ensures EraDays(n) == 36524 * c + 1461 * q + 365 * a
  {
  }

  lemma LeapOnlyLast(n: int, c: int, q: int, a: int)
    requires n == 100 * c + 4 * q + a && 0 <= c <= 3 && 0 <= q <= 24 && 0 <= a <= 3
    ensures EndsLeap(n) ==> a == 3 && (q == 24 ==> c == 3)
  {
  }

  lemma Centuries(doe: int, c: int, q: int, a: int, t: int)
    requires 0 <= c <= 3 && 0 <= q <= 24 && 0 <= a <= 3 && 0 <= t <= 365
    requires t == 365 ==> a == 3 && (q == 24 ==> c == 3)
    requires doe == 36524 * c + 1461 * q + 365 * a + t
    ensures doe / 36524 == c + if doe == 146096 then 1 else 0
    ensures doe / 146096 == if doe == 146096 then 1 else 0
  {
    assert 0 <= 1461 * q + 365 * a + t <= 36524;
  }

  // ------------------------------------------------------------------ months

  /** The March-based month of a day of the year, and where that month starts. */
  lemma MarchMonth(doy: int)
    requires 0 <= doy <= 365
    ensures var mp := (5 * doy + 2) / 153;
            && 0 <= mp <= 11
            && (153 * mp + 2) / 5 <= doy
            && (mp < 11 ==> doy < (153 * (mp + 1) + 2) / 5)
  {
  }

  /** From March on, the month starts are those of the shifted table; the leap day has passed. */
  lemma MonthStarts(y: int, m: int)
    requires 1 <= m <= 12
    ensures m >= 3 ==> DaysBeforeMonth(y, m) == 59 + (if Leap(y) then 1 else 0) + (153 * (m - 3) + 2) / 5
    ensures m <= 2 ==> DaysBeforeMonth(y, m) == (153 * (m + 9) + 2) / 5 - 306
  {
    assert DaysBeforeMonth(y, 2) == 31;
    assert DaysBeforeMonth(y, 3) == 31 + MonthLength(y, 2);
    assert DaysBeforeMonth(y, 4) == DaysBeforeMonth(y, 3) + 31;
    assert DaysBeforeMonth(y, 5) == DaysBeforeMonth(y, 4) + 30;
    assert DaysBeforeMonth(y, 6) == DaysBeforeMonth(y, 5) + 31;
    assert DaysBeforeMonth(y, 7) == DaysBeforeMonth(y, 6) + 30;
    assert DaysBeforeMonth(y, 8) == DaysBeforeMonth(y, 7) + 31;
    assert DaysBeforeMonth(y, 9) == DaysBeforeMonth(y, 8) + 31;
    assert DaysBeforeMonth(y, 10) == DaysBeforeMonth(y, 9) + 30;
    assert DaysBeforeMonth(y, 11) == DaysBeforeMonth(y, 10) + 31;
    assert DaysBeforeMonth(y, 12) == DaysBeforeMonth(y, 11) + 30;
  }

  // ------------------------------------------------------------------ the date is the calendar's

  lemma EraAndYear(z: int, era: int, doe: int, yoe: int, doy: int)
    requires z >= 719468 && era == z / 146097 && doe == z % 146097
    requires 0 <= yoe <= 399 && doy == doe - EraDays(yoe)
    ensures var y := yoe + era * 400; z == 365 * y + LeapDays(y) + doy
  {
    var y := yoe + era * 400;
    assert y / 4 == yoe / 4 + era * 100;
    assert y / 100 == yoe / 100 + era * 4;
    assert y / 400 == era;
  }

  lemma EndsLeapIsLeap(yoe: int, era: int)
    requires 0 <= yoe <= 399
    ensures EndsLeap(yoe) <==> Leap(yoe + era * 400 + 1)
  {
    ErasDropOut(yoe + 1, era);
  }

  lemma ErasDropOut(x: int, era: int)
    ensures (x + era * 400) % 4 == x % 4
    ensures (x + era * 400) % 100 == x % 100
    ensures (x + era * 400) % 400 == x % 400
  {
    assert (x + era * 400) / 4 == x / 4 + era * 100;
    assert (x + era * 400) / 100 == x / 100 + era * 4;
    assert (x + era * 400) / 400 == x / 400 + era;
  }

  lemma MarchDay(z: int, era: int, doe: int, yoe: int, doy: int)
    requires z >= 719468 && era == z / 146097 && doe == z % 146097
    requires yoe == YearOfEra(doe) && doy == DayOfYear(doe, yoe)
    ensures var y := yoe + era * 400;
            && z == 365 * y + LeapDays(y) + doy
            && 0 <= doy < if Leap(y + 1) then 366 else 365
  {
    EraDay(doe);
    EraAndYear(z, era, doe, yoe, doy);
    EndsLeapIsLeap(yoe, era);
  }

  lemma CivilParts(days: nat, era: int, doe: int)
    requires era == (days + 719468) / 146097 && doe == (days + 719468) % 146097
    ensures CivilFromDays(days) == FromMarch(YearOfEra(doe) + era * 400, DayOfYear(doe, YearOfEra(doe)))
  {
  }

  lemma MarchIsCalendar(days: nat, era: int, doe: int, d: Date)
    requires era == (days + 719468) / 146097 && doe == (days + 719468) % 146097
    requires d == FromMarch(YearOfEra(doe) + era * 400, DayOfYear(doe, YearOfEra(doe)))
    ensures ValidDate(d) && DayNumber(d) == days
  {
    MarchDay(days + 719468, era, doe, YearOfEra(doe), DayOfYear(doe, YearOfEra(doe)));
    DateFromMarch(days, YearOfEra(doe) + era * 400, DayOfYear(doe, YearOfEra(doe)));
  }

  /** For every day the printed date is a valid Gregorian date, and the calendar counts exactly
      that many days to it. */
  lemma CivilIsCalendar(days: nat)
    ensures ValidDate(CivilFromDays(days))
    ensures DayNumber(CivilFromDays(days)) == days
  {
    var era, doe := (days + 719468) / 146097, (days + 719468) % 146097;
    CivilParts(days, era, doe);
    MarchIsCalendar(days, era, doe, CivilFromDays(days));
  }

  lemma EraDay(doe: int)
    requires 0 <= doe < 146097
    ensures 0 <= YearOfEra(doe) <= 399
    ensures DayOfYear(doe, YearOfEra(doe)) == doe - EraDays(YearOfEra(doe))
    ensures 0 <= DayOfYear(doe, YearOfEra(doe)) < if EndsLeap(YearOfEra(doe)) then 366 else 365
  {
    var n := EraYearExists(doe, 399);
    YearOfEraIs(doe, n);
  }

  /** The last step: from the March-based year and day to the calendar's date. */
  lemma DateFromMarch(days: nat, y: int, doy: int)
    requires days + 719468 == 365 * y + LeapDays(y) + doy
    requires 0 <= doy < if Leap(y + 1) then 366 else 365
    ensures ValidDate(FromMarch(y, doy)) && DayNumber(FromMarch(y, doy)) == days
  {
    var mp := (5 * doy + 2) / 153;
    var month := if mp < 10 then mp + 3 else mp - 9;
    var year := if month <= 2 then y + 1 else y;
    MarchMonth(doy);
    YearAtLeast1970(days, y, doy);
    MonthStarts(year, month);
    DaysBeforeYearClosed(year);
    if month > 2 {
      LeapDaysStep(year);
    }
  }

  lemma YearAtLeast1970(days: nat, y: int, doy: int)
    requires days + 719468 == 365 * y + LeapDays(y) + doy && 0 <= doy <= 365
    ensures y >= 1969 && (y == 1969 ==> doy >= 306)
  {
  }

  // ------------------------------------------------------------------ order

  predicate EarlierDate(a: Date, b: Date) {
    a.year < b.year || (a.year == b.year && (a.month < b.month || (a.month == b.month && a.day < b.day)))
  }

  lemma {:induction false} YearsAdd(y: int, z: int)
    requires 1970 <= y < z
    ensures DaysBeforeYear(y) + (if Leap(y) then 366 else 365) <= DaysBeforeYear(z)
  {
    if y < z - 1 {
      YearsAdd(y, z - 1);
    }
  }

  lemma {:induction false} MonthsAdd(y: int, m: int, n: int)
    requires 1 <= m < n <= 12
    ensures DaysBeforeMonth(y, m) + MonthLength(y, m) <= DaysBeforeMonth(y, n)
    decreases n
  {
    if m < n - 1 {
      MonthsAdd(y, m, n - 1);
    }
  }

  lemma DayWithinYear(d: Date)
    requires ValidDate(d)
    ensures 0 <= DayNumber(d) - DaysBeforeYear(d.year) < if Leap(d.year) then 366 else 365
  {
    MonthStarts(d.year, d.month);
  }

  /** The calendar counts later dates higher. */
  lemma LaterDateLaterDay(a: Date, b: Date)
    requires ValidDate(a) && ValidDate(b) && EarlierDate(a, b)
    ensures DayNumber(a) < DayNumber(b)
  {
    if a.year < b.year {
      DayWithinYear(a);
      DayWithinYear(b);
      YearsAdd(a.year, b.year);
    } else if a.month < b.month {
      MonthsAdd(a.year, a.month, b.month);
    }
  }

  /** The other round trip: every date of the calendar from 1970 on is what its day prints as. */
  lemma CalendarIsCivil(d: Date)
    requires ValidDate(d)
    ensures DayNumber(d) >= 0
    ensures CivilFromDays(DayNumber(d)) == d
  {
    DayNumberNonNegative(d);
    var printed := CivilFromDays(DayNumber(d));
    CivilIsCalendar(DayNumber(d));
    if EarlierDate(printed, d) {
      LaterDateLaterDay(printed, d);
    } else if EarlierDate(d, printed) {
      LaterDateLaterDay(d, printed);
    }
  }

  lemma DayNumberNonNegative(d: Date)
    requires ValidDate(d)
    ensures DayNumber(d) >= 0
  {
    DaysBeforeYearClosed(d.year);
    DayWithinYear(d);
  }

  lemma CivilOrder(a: nat, b: nat)
    ensures a < b <==> EarlierDate(CivilFromDays(a), CivilFromDays(b))
  {
    CivilIsCalendar(a);
    CivilIsCalendar(b);
    var x, y := CivilFromDays(a), CivilFromDays(b);
    if EarlierDate(x, y) {
      LaterDateLaterDay(x, y);
    } else if EarlierDate(y, x) {
      LaterDateLaterDay(y, x);
    }
  }

  // ------------------------------------------------------------------ the printed string

  lemma Padded2(n: nat)
    requires n <= 99
    ensures Padded(n, 2) == [Digit(n / 10), Digit(n % 10)]
  {
    assert Padded(n / 10, 1) == [Digit(n / 10)] by {
      assert Padded(0, 0) == "";
    }
  }

  lemma Padded4(n: nat)
    requires n <= 9999
    ensures Padded(n, 4) == Padded(n / 100, 2) + Padded(n % 100, 2)
  {
    Padded2(n / 100);
    Padded2(n % 100);
    assert Padded(n, 4) == Padded(n / 10, 3) + [Digit(n % 10)];
    assert Padded(n / 10, 3) == Padded(n / 10 / 10, 2) + [Digit(n / 10 % 10)];
    assert n / 10 / 10 == n / 100 && n / 10 % 10 == n % 100 / 10 && n % 100 % 10 == n % 10;
  }

  /** Strings compare by their first halves, then by their second. */
  lemma {:induction false} LexConcat(a: string, b: string, x: string, y: string)
    requires |a| == |b|
    ensures LexLess(a + x, b + y) <==> LexLess(a, b) || (a == b && LexLess(x, y))
  {
    if a != "" {
      assert (a + x)[1..] == a[1..] + x && (b + y)[1..] == b[1..] + y;
      LexConcat(a[1..], b[1..], x, y);
      assert a == [a[0]] + a[1..] && b == [b[0]] + b[1..];
    } else {
      assert a + x == x && b + y == y;
    }
  }

  lemma Order2(m: nat, n: nat)
    requires m <= 99 && n <= 99
    ensures |Padded(m, 2)| == |Padded(n, 2)|
    ensures LexLess(Padded(m, 2), Padded(n, 2)) <==> m < n
    ensures Padded(m, 2) == Padded(n, 2) <==> m == n
  {
    Padded2(m);
    Padded2(n);
    DigitOrder(m / 10, n / 10);
    DigitOrder(m % 10, n % 10);
    assert Padded(m, 2) == [Digit(m / 10)] + [Digit(m % 10)];
    assert Padded(n, 2) == [Digit(n / 10)] + [Digit(n % 10)];
    LexConcat([Digit(m / 10)], [Digit(n / 10)], [Digit(m % 10)], [Digit(n % 10)]);
    LexOne(Digit(m / 10), Digit(n / 10));
    LexOne(Digit(m % 10), Digit(n % 10));
  }

  lemma LexOne(a: char, b: char)
    ensures LexLess([a], [b]) <==> a != b && UnitRank(a) < UnitRank(b)
  {
    assert !LexLess([a][1..], [b][1..]);
  }

  lemma DigitOrder(a: int, b: int)
    requires 0 <= a <= 9 && 0 <= b <= 9
    ensures UnitRank(Digit(a)) < UnitRank(Digit(b)) <==> a < b
    ensures Digit(a) == Digit(b) <==> a == b
  {
  }

  lemma Order4(m: nat, n: nat)
    requires m <= 9999 && n <= 9999
    ensures |Padded(m, 4)| == |Padded(n, 4)|
    ensures LexLess(Padded(m, 4), Padded(n, 4)) <==> m < n
    ensures Padded(m, 4) == Padded(n, 4) <==> m == n
  {
    Padded4(m);
    Padded4(n);
    Order2(m / 100, n / 100);
    Order2(m % 100, n % 100);
    Order2(m % 100, n / 100);
    LexConcat(Padded(m / 100, 2), Padded(n / 100, 2), Padded(m % 100, 2), Padded(n % 100, 2));
    var a, b := Padded(m, 4), Padded(n, 4);
    if a == b {
      assert Padded(m / 100, 2) == a[..|Padded(m / 100, 2)|] == b[..|Padded(n / 100, 2)|] == Padded(n / 100, 2);
      assert Padded(m % 100, 2) == a[|Padded(m / 100, 2)|..] == b[|Padded(n / 100, 2)|..] == Padded(n % 100, 2);
    }
  }

  lemma LexIrreflexive(a: string)
    ensures !LexLess(a, a)
  {
    LexTotal(a, a);
  }

  /** Fields of equal width with a separator between them compare field by field. */
  lemma LexFields(a: string, b: string, separator: string, x: string, y: string)
    requires |a| == |b|
    ensures LexLess(a + separator + x, b + separator + y) <==> LexLess(a, b) || (a == b && LexLess(x, y))
    ensures |x| == |y| ==> (a + separator + x == b + separator + y <==> a == b && x == y)
  {
    assert a + separator + x == a + (separator + x) && b + separator + y == b + (separator + y);
    LexConcat(a, b, separator + x, separator + y);
    LexConcat(separator, separator, x, y);
    LexIrreflexive(separator);
    if |x| == |y| {
      SameFields(a, b, separator, x, y);
    }
  }

  lemma SameFields(a: string, b: string, separator: string, x: string, y: string)
    requires |a| == |b| && |x| == |y|
    ensures a + separator + x == b + separator + y <==> a == b && x == y
  {
    if a + separator + x == b + separator + y {
      assert a == (a + separator + x)[..|a|] == (b + separator + y)[..|a|] == b;
      assert x == (a + separator + x)[|a + separator|..] == (b + separator + y)[|a + separator|..] == y;
    }
  }

  predicate FourDigitYear(d: Date) {
    ValidDate(d) && d.year <= 9999
  }

  lemma DateTextOrder(a: Date, b: Date)
    requires FourDigitYear(a) && FourDigitYear(b)
    ensures |DateText(a)| == |DateText(b)|
    ensures LexLess(DateText(a), DateText(b)) <==> EarlierDate(a, b)
    ensures DateText(a) == DateText(b) <==> a == b
  {
    Order4(a.year, b.year);
    Order2(a.month, b.month);
    Order2(a.day, b.day);
    var yearMonthA := Padded(a.year, 4) + "-" + Padded(a.month, 2);
    var yearMonthB := Padded(b.year, 4) + "-" + Padded(b.month, 2);
    LexFields(Padded(a.year, 4), Padded(b.year, 4), "-", Padded(a.month, 2), Padded(b.month, 2));
    LexFields(yearMonthA, yearMonthB, "-", Padded(a.day, 2), Padded(b.day, 2));
  }

  lemma ClockTextOrder(h: nat, m: nat, s: nat, h': nat, m': nat, s': nat)
    requires h <= 99 && m <= 99 && s <= 99 && h' <= 99 && m' <= 99 && s' <= 99
    ensures |ClockText(h, m, s)| == |ClockText(h', m', s')|
    ensures LexLess(ClockText(h, m, s), ClockText(h', m', s')) <==>
            (h < h' || (h == h' && (m < m' || (m == m' && s < s'))))
    ensures ClockText(h, m, s) == ClockText(h', m', s') <==> h == h' && m == m' && s == s'
  {
    Order2(h, h');
    Order2(m, m');
    Order2(s, s');
    LexFields(Padded(h, 2), Padded(h', 2), ":", Padded(m, 2), Padded(m', 2));
    LexFields(Padded(h, 2) + ":" + Padded(m, 2), Padded(h', 2) + ":" + Padded(m', 2), ":", Padded(s, 2), Padded(s', 2));
  }

  lemma ClockFields(sod: nat, h: nat, m: nat, s: nat)
    requires sod < 86400 && h == sod / 3600 && m == sod % 3600 / 60 && s == sod % 60
    ensures sod == 3600 * h + 60 * m + s && h <= 23 && m <= 59 && s <= 59
  {
  }

  lemma SecondOfDayOrder(a: nat, b: nat)
    requires a < 86400 && b < 86400
    ensures |SecondOfDayText(a)| == |SecondOfDayText(b)|
    ensures LexLess(SecondOfDayText(a), SecondOfDayText(b)) <==> a < b
    ensures SecondOfDayText(a) == SecondOfDayText(b) <==> a == b
  {
    var h, m, s := a / 3600, a % 3600 / 60, a % 60;
    var h', m', s' := b / 3600, b % 3600 / 60, b % 60;
    ClockFields(a, h, m, s);
    ClockFields(b, h', m', s');
    ClockTextOrder(h, m, s, h', m', s');
  }

  /** The first second of the year 10000. */
  const YEAR_10000 := 253402300800

  lemma YearsBefore10000(seconds: nat)
    ensures ValidDate(CivilFromDays(seconds / 86400))
    ensures FourDigitYear(CivilFromDays(seconds / 86400)) <==> seconds < YEAR_10000
  {
    var d, start := CivilFromDays(seconds / 86400), Date(10000, 1, 1);
    CivilIsCalendar(seconds / 86400);
    DaysBeforeYearClosed(10000);
    assert DayNumber(start) * 86400 == YEAR_10000;
    if d.year <= 9999 {
      LaterDateLaterDay(d, start);
    } else if d != start {
      LaterDateLaterDay(start, d);
    }
  }

  /** Up to the year 9999 the printed strings sort exactly as the instants do, and no two instants
      print alike. */
  lemma PrintedOrder(s: nat, t: nat)
    requires s < YEAR_10000 && t < YEAR_10000
    ensures LexLess(FormatUtc(s), FormatUtc(t)) <==> s < t
    ensures FormatUtc(s) == FormatUtc(t) <==> s == t
  {
    YearsBefore10000(s);
    YearsBefore10000(t);
    var a, b := CivilFromDays(s / 86400), CivilFromDays(t / 86400);
    DateTextOrder(a, b);
    CivilOrder(s / 86400, t / 86400);
    CivilOrder(t / 86400, s / 86400);
    SecondOfDayOrder(s % 86400, t % 86400);
    var x, y := DateText(a) + "T" + SecondOfDayText(s % 86400), DateText(b) + "T" + SecondOfDayText(t % 86400);
    LexFields(DateText(a), DateText(b), "T", SecondOfDayText(s % 86400), SecondOfDayText(t % 86400));
    LexFields(x, y, "Z", "", "");
    assert x + "Z" + "" == x + "Z" && y + "Z" + "" == y + "Z";
  }

  lemma DateAt(days: nat, d: Date)
    requires ValidDate(d) && DayNumber(d) == days
    ensures CivilFromDays(days) == d
  {
    CalendarIsCivil(d);
  }

  lemma YearStarts(day: nat)
    requires day == YEAR_10000 / 86400
    ensures CivilFromDays(day) == Date(10000, 1, 1)
  {
    DaysBeforeYearClosed(10000);
    DateAt(day, Date(10000, 1, 1));
  }

  lemma {:induction false} DigitsOf10000()
    ensures |Padded(10000, 4)| >= 2 && Padded(10000, 4)[..2] == Padded(10, 2)
  {
    assert Padded(100, 2) == "100" by {
      assert Padded(1, 0) == "1";
      assert Padded(10, 1) == "10";
    }
    assert Padded(1000, 3) == "1000";
    Padded2(10);
    assert "10000"[..2] == "10";
  }

  lemma PrintsYearFirst(seconds: nat, d: Date, first: string)
    requires ValidDate(d) && CivilFromDays(seconds / 86400) == d
    requires |first| <= |Padded(d.year, 4)| && Padded(d.year, 4)[..|first|] == first
    ensures |first| <= |FormatUtc(seconds)| && FormatUtc(seconds)[..|first|] == first
  {
  }

  lemma LexByPrefix(a: string, b: string, n: nat)
    requires n <= |a| && n <= |b| && LexLess(a[..n], b[..n])
    ensures LexLess(a, b)
  {
    assert a == a[..n] + a[n..] && b == b[..n] + b[n..];
    LexConcat(a[..n], b[..n], a[n..], b[n..]);
  }

  lemma Century(year: nat)
    requires year <= 9999
    ensures |Padded(year, 4)| == 4 && Padded(year, 4)[..2] == Padded(year / 100, 2)
  {
    Padded4(year);
    Padded2(year / 100);
    Padded2(year % 100);
  }

  /** From then on the order breaks, because the year has grown a digit: the first second of the
      year 10000 sorts before every earlier instant. */
  lemma Year10000BreaksOrder(s: nat, start: nat)
    requires s < start == YEAR_10000
    ensures LexLess(FormatUtc(start), FormatUtc(s))
  {
    YearStarts(start / 86400);
    DigitsOf10000();
    Padded2(10);
    PrintsYearFirst(start, Date(10000, 1, 1), Padded(10, 2));
    YearsBefore10000(s);
    var d := CivilFromDays(s / 86400);
    Century(d.year);
    Padded2(d.year / 100);
    PrintsYearFirst(s, d, Padded(d.year / 100, 2));
    Order2(10, d.year / 100);
    LexByPrefix(FormatUtc(start), FormatUtc(s), 2);
  }

  /** Below `n` the printed strings sort exactly as the instants. */
  ghost predicate OrderedBelow(n: nat) {
    forall s: nat, t: nat :: s < n && t < n ==> (LexLess(FormatUtc(s), FormatUtc(t)) <==> s < t)
  }

  /** The order holds below the first second of the year 10000 and below no later bound. */
  lemma OrderedExactlyBelow10000(n: nat)
    ensures OrderedBelow(n) <==> n <= YEAR_10000
  {
    if n <= YEAR_10000 {
      forall s: nat, t: nat | s < n && t < n ensures LexLess(FormatUtc(s), FormatUtc(t)) <==> s < t {
        PrintedOrder(s, t);
      }
    } else {
      var start: nat := YEAR_10000;
      Year10000BreaksOrder(0, start);
      assert LexLess(FormatUtc(start), FormatUtc(0)) && !(start < 0);
    }
  }

  // ------------------------------------------------------------------ read back

  /** "hh:mm:ss" */
  function ParseClock(s: string): Option<int> {
    if |s| != 8 || s[2] != ':' || s[5] != ':' then None
    else
      match (DigitsValue(s[..2]), DigitsValue(s[3..5]), DigitsValue(s[6..]))
      case (Some(h), Some(m), Some(sec)) =>
        if h < 24 && m < 60 && sec < 60 then Some(3600 * h + 60 * m + sec) else None
      case _ => None
  }

  /** "yyyy-mm-dd", with a year of any length. */
  function ParseDate(s: string): Option<int> {
    var n := |s| - 6;
    if n < 0 || s[n] != '-' || s[n + 3] != '-' then None
    else
      match (DigitsValue(s[..n]), DigitsValue(s[n + 1..n + 3]), DigitsValue(s[n + 4..]))
      case (Some(y), Some(m), Some(d)) => if ValidDate(Date(y, m, d)) then Some(DayNumber(Date(y, m, d))) else None
      case _ => None
  }

  /** A reader of RFC 3339 UTC time stamps to the second. */
  function ParseUtc(s: string): Option<int> {
    var n := |s| - 10;
    if n < 0 || s[n] != 'T' || s[|s| - 1] != 'Z' then None
    else
      match (ParseDate(s[..n]), ParseClock(s[n + 1..|s| - 1]))
      case (Some(day), Some(second)) => Some(day * 86400 + second)
      case _ => None
  }

  lemma DigitsSnoc(s: string, n: nat, d: int)
    requires DigitsValue(s) == Some(n) && 0 <= d <= 9
    ensures DigitsValue(s + [Digit(d)]) == Some(10 * n + d)
  {
    assert (s + [Digit(d)])[..|s|] == s;
  }

  lemma {:induction false} PaddedValue(n: nat, width: nat)
    ensures DigitsValue(Padded(n, width)) == Some(n)
    decreases n, width
  {
    if n > 0 || width > 0 {
      var less := if width == 0 then 0 else width - 1;
      PaddedValue(n / 10, less);
      DigitsSnoc(Padded(n / 10, less), n / 10, n % 10);
    }
  }

  /** The fields of a text and the separators between them. */
  lemma FieldsOf(a: string, x: char, b: string, y: char, c: string, text: string)
    requires text == a + [x] + b + [y] + c
    ensures |text| == |a| + |b| + |c| + 2 && text[|a|] == x && text[|a| + |b| + 1] == y
    ensures text[..|a|] == a && text[|a| + 1..|a| + |b| + 1] == b && text[|a| + |b| + 2..] == c
  {
  }

  lemma ClockReadsBack(h: nat, m: nat, s: nat, a: string, b: string, c: string)
    requires h <= 23 && m <= 59 && s <= 59 && |a| == |b| == |c| == 2
    requires DigitsValue(a) == Some(h) && DigitsValue(b) == Some(m) && DigitsValue(c) == Some(s)
    ensures |a + ":" + b + ":" + c| == 8 && ParseClock(a + ":" + b + ":" + c) == Some(3600 * h + 60 * m + s)
  {
    FieldsOf(a, ':', b, ':', c, a + ":" + b + ":" + c);
  }

  lemma DateReadsBack(d: Date, y: string, m: string, day: string)
    requires ValidDate(d) && |m| == |day| == 2
    requires DigitsValue(y) == Some(d.year) && DigitsValue(m) == Some(d.month) && DigitsValue(day) == Some(d.day)
    ensures ParseDate(y + "-" + m + "-" + day) == Some(DayNumber(d))
  {
    FieldsOf(y, '-', m, '-', day, y + "-" + m + "-" + day);
    assert Date(d.year, d.month, d.day) == d;
  }

  lemma TwoDigits(n: nat)
    requires n <= 99
    ensures |Padded(n, 2)| == 2 && DigitsValue(Padded(n, 2)) == Some(n)
  {
    Padded2(n);
    PaddedValue(n, 2);
  }

  lemma StampReadsBack(date: string, clock: string, day: int, second: int)
    requires |clock| == 8 && ParseDate(date) == Some(day) && ParseClock(clock) == Some(second)
    ensures ParseUtc(date + "T" + clock + "Z") == Some(day * 86400 + second)
  {
    var stamp := date + "T" + clock + "Z";
    assert stamp[..|date|] == date && stamp[|date| + 1..|stamp| - 1] == clock;
  }

  lemma SecondReadsBack(sod: nat, h: nat, m: nat, s: nat)
    requires sod < 86400 && h == sod / 3600 && m == sod % 3600 / 60 && s == sod % 60
    ensures |ClockText(h, m, s)| == 8 && ParseClock(ClockText(h, m, s)) == Some(sod)
  {
    ClockFields(sod, h, m, s);
    TwoDigits(h);
    TwoDigits(m);
    TwoDigits(s);
    ClockReadsBack(h, m, s, Padded(h, 2), Padded(m, 2), Padded(s, 2));
  }

  lemma DayReadsBack(d: Date)
    requires ValidDate(d)
    ensures ParseDate(DateText(d)) == Some(DayNumber(d))
  {
    PaddedValue(d.year, 4);
    TwoDigits(d.month);
    TwoDigits(d.day);
    DateReadsBack(d, Padded(d.year, 4), Padded(d.month, 2), Padded(d.day, 2));
  }

  lemma PrintedParts(seconds: nat, date: string, clock: string)
    requires ValidDate(CivilFromDays(seconds / 86400)) && date == DateText(CivilFromDays(seconds / 86400))
    requires clock == SecondOfDayText(seconds % 86400)
    ensures FormatUtc(seconds) == date + "T" + clock + "Z"
  {
  }

  lemma ClockTextReadsBack(sod: nat)
    requires sod < 86400
    ensures |SecondOfDayText(sod)| == 8 && ParseClock(SecondOfDayText(sod)) == Some(sod)
  {
    SecondReadsBack(sod, sod / 3600, sod % 3600 / 60, sod % 60);
  }

  lemma DayTextReadsBack(days: nat)
    ensures ValidDate(CivilFromDays(days)) && ParseDate(DateText(CivilFromDays(days))) == Some(days)
  {
    CivilIsCalendar(days);
    DayReadsBack(CivilFromDays(days));
  }

  lemma StampOf(seconds: nat) returns (date: string, clock: string, days: nat, sod: nat)
    ensures FormatUtc(seconds) == date + "T" + clock + "Z" && |clock| == 8
    ensures ParseDate(date) == Some(days) && ParseClock(clock) == Some(sod)
    ensures days * 86400 + sod == seconds
  {
    days, sod := seconds / 86400, seconds % 86400;
    DayTextReadsBack(days);
    ClockTextReadsBack(sod);
    date, clock := DateText(CivilFromDays(days)), SecondOfDayText(sod);
    PrintedParts(seconds, date, clock);
  }

  lemma Reread(stamp: string, date: string, clock: string, days: nat, sod: nat, seconds: nat)
    requires stamp == date + "T" + clock + "Z" && |clock| == 8 && days * 86400 + sod == seconds
    requires ParseDate(date) == Some(days) && ParseClock(clock) == Some(sod)
    ensures ParseUtc(stamp) == Some(seconds)
  {
    StampReadsBack(date, clock, days, sod);
  }

  /** The printed time stamp reads back as the second it was printed for, in every year. */
  lemma PrintedReadsBack(seconds: nat)
    ensures ParseUtc(FormatUtc(seconds)) == Some(seconds)
  {
    var date, clock, days, sod := StampOf(seconds);
    Reread(FormatUtc(seconds), date, clock, days, sod, seconds);
  }
}
