/** Calendar dates of the proleptic Gregorian calendar, their ISO 8601 extended text
    `YYYY-MM-DD` (section 5.2.1.1 of ISO 8601:2004), day arithmetic and the weekday in
    JavaScript `getDay` numbering (0 = Sunday, 1 = Monday, ..., 6 = Saturday). */
module Calendar {
  import opened Js
  import Clock

  datatype Date = Date(year: nat, month: nat, day: nat)

  predicate IsLeap(y: int) {
    y % 4 == 0 && (y % 100 != 0 || y % 400 == 0)
  }

  function DaysInMonth(y: int, m: nat): (n: nat)
    requires 1 <= m <= 12
    ensures 28 <= n <= 31
  {
    if m == 2 then (if IsLeap(y) then 29 else 28)
    else if m == 4 || m == 6 || m == 9 || m == 11 then 30
    else 31
  }

  function DaysInYear(y: int): nat {
    if IsLeap(y) then 366 else 365
  }

  predicate Valid(d: Date) {
    1 <= d.month <= 12 && 1 <= d.day <= DaysInMonth(d.year, d.month)
  }

  /** Days from 0001-01-01 to January 1st of year `y`. */
  function DaysBeforeYear(y: int): int {
    365 * (y - 1) + (y - 1) / 4 - (y - 1) / 100 + (y - 1) / 400
  }

  /** Days from January 1st to the first of month `m` of year `y`. */
  function DaysBeforeMonth(y: int, m: nat): nat
    requires 1 <= m <= 12
  {
    [0, 31, 59, 90, 120, 151, 181, 212, 243, 273, 304, 334][m - 1]
      + (if m > 2 && IsLeap(y) then 1 else 0)
  }

  /** Days since 0001-01-01 (day 0). */
  function DayNumber(d: Date): int
    requires Valid(d)
  {
    DaysBeforeYear(d.year) + DaysBeforeMonth(d.year, d.month) + d.day - 1
  }

  /** `getDay()`: 0001-01-01 was a Monday. */
  function Weekday(d: Date): (w: nat)
    requires Valid(d)
    ensures w < 7
  {
    (DayNumber(d) + 1) % 7
  }

  /** Fixed points of the numbering: 1970-01-01 was a Thursday and 2000-01-01 a Saturday. */
  lemma WeekdayAnchors()
    ensures Weekday(Date(1970, 1, 1)) == 4
    ensures Weekday(Date(2000, 1, 1)) == 6
  {
    assert DayNumber(Date(1970, 1, 1)) == 719162;
    assert DayNumber(Date(2000, 1, 1)) == 730119;
  }

  /** The following calendar day. */
  function NextDay(d: Date): (r: Date)
    requires Valid(d)
    ensures Valid(r)
  {
    if d.day < DaysInMonth(d.year, d.month) then Date(d.year, d.month, d.day + 1)
    else if d.month < 12 then Date(d.year, d.month + 1, 1)
    else Date(d.year + 1, 1, 1)
  }

  /** date-fns `addDays(d, n)` for n >= 0. */
  function AddDays(d: Date, n: nat): (r: Date)
    requires Valid(d)
    ensures Valid(r)
    decreases n
  {
    if n == 0 then d else NextDay(AddDays(d, n - 1))
  }

  // ---------------------------------------------------------------- day numbers

  lemma DivStep4(y: int)
    ensures y / 4 - (y - 1) / 4 == (if y % 4 == 0 then 1 else 0)
  {
    var q, r := (y - 1) / 4, (y - 1) % 4;
    assert y - 1 == 4 * q + r && 0 <= r < 4;
    if r == 3 {
      assert y == 4 * (q + 1);
    } else {
      assert y == 4 * q + (r + 1);
    }
  }

  lemma DivStep100(y: int)
    ensures y / 100 - (y - 1) / 100 == (if y % 100 == 0 then 1 else 0)
  {
    var q, r := (y - 1) / 100, (y - 1) % 100;
    assert y - 1 == 100 * q + r && 0 <= r < 100;
    if r == 99 {
      assert y == 100 * (q + 1);
    } else {
      assert y == 100 * q + (r + 1);
    }
  }

  lemma DivStep400(y: int)
    ensures y / 400 - (y - 1) / 400 == (if y % 400 == 0 then 1 else 0)
  {
    var q, r := (y - 1) / 400, (y - 1) % 400;
    assert y - 1 == 400 * q + r && 0 <= r < 400;
    if r == 399 {
      assert y == 400 * (q + 1);
    } else {
      assert y == 400 * q + (r + 1);
    }
  }

  lemma Mod100Of400(y: int)
    requires y % 400 == 0
    ensures y % 100 == 0
  {
    var q := y / 400;
    assert y == 100 * (4 * q);
  }

  lemma Mod4Of100(y: int)
    requires y % 100 == 0
    ensures y % 4 == 0
  {
    var q := y / 100;
    assert y == 4 * (25 * q);
  }

  /** The leap-year rule as the change of the three quotients of `DaysBeforeYear`. */
  lemma LeapSteps(y: int)
    ensures (y / 4 - (y - 1) / 4) - (y / 100 - (y - 1) / 100) + (y / 400 - (y - 1) / 400)
            == if IsLeap(y) then 1 else 0
  {
    DivStep4(y);
    DivStep100(y);
    DivStep400(y);
    if y % 400 == 0 {
      Mod100Of400(y);
      Mod4Of100(y);
    } else if y % 100 == 0 {
      Mod4Of100(y);
    }
  }

  lemma YearStep(y: int)
    ensures DaysBeforeYear(y + 1) == DaysBeforeYear(y) + DaysInYear(y)
  {
    LeapSteps(y);
  }

  lemma MonthStep(y: int, m: nat)
    requires 1 <= m < 12
    ensures DaysBeforeMonth(y, m + 1) == DaysBeforeMonth(y, m) + DaysInMonth(y, m)
  {
  }

  /** Going to the next day adds one to the day number. */
  lemma NextDayNumber(d: Date)
    requires Valid(d)
    ensures DayNumber(NextDay(d)) == DayNumber(d) + 1
  {
    if d.day == DaysInMonth(d.year, d.month) {
      if d.month < 12 {
        MonthStep(d.year, d.month);
      } else {
        YearStep(d.year);
      }
    }
  }

  /** The weekday advances by one, wrapping from Saturday (6) to Sunday (0). */
  lemma NextDayWeekday(d: Date)
    requires Valid(d)
    ensures Weekday(NextDay(d)) == (Weekday(d) + 1) % 7
  {
    NextDayNumber(d);
    ModSuccessor(DayNumber(d) + 1);
  }

  lemma ModSuccessor(x: int)
    ensures (x + 1) % 7 == (x % 7 + 1) % 7
  {
    var q, r := x / 7, x % 7;
    assert x == 7 * q + r && 0 <= r < 7;
    if r == 6 {
      assert x + 1 == 7 * (q + 1);
    } else {
      assert x + 1 == 7 * q + (r + 1);
    }
  }

  lemma {:induction false} AddDaysNumber(d: Date, n: nat)
    requires Valid(d)
    ensures DayNumber(AddDays(d, n)) == DayNumber(d) + n
    decreases n
  {
    if n > 0 {
      AddDaysNumber(d, n - 1);
      NextDayNumber(AddDays(d, n - 1));
    }
  }

  lemma {:induction false} YearsMonotone(y1: int, y2: int)
    requires y1 <= y2
    ensures DaysBeforeYear(y1) + (if y1 < y2 then DaysInYear(y1) else 0) <= DaysBeforeYear(y2)
    decreases y2 - y1
  {
    if y1 < y2 {
      YearStep(y1);
      if y1 + 1 < y2 {
        YearsMonotone(y1 + 1, y2);
      }
    }
  }

  lemma MonthsMonotone(y: int, m1: nat, m2: nat)
    requires 1 <= m1 < m2 <= 12
    ensures DaysBeforeMonth(y, m1) + DaysInMonth(y, m1) <= DaysBeforeMonth(y, m2)
  {
  }

  lemma DayWithinYear(d: Date)
    requires Valid(d)
    ensures DaysBeforeMonth(d.year, d.month) + d.day <= DaysInYear(d.year)
  {
  }

  /** Lexicographic order on (year, month, day). */
  predicate Before(a: Date, b: Date) {
    a.year < b.year || (a.year == b.year &&
      (a.month < b.month || (a.month == b.month && a.day < b.day)))
  }

  /** Day numbers order dates chronologically: earlier calendar date, smaller number. */
  lemma DayNumberOrder(a: Date, b: Date)
    requires Valid(a) && Valid(b)
    ensures DayNumber(a) < DayNumber(b) <==> Before(a, b)
    ensures DayNumber(a) == DayNumber(b) <==> a == b
  {
    DayWithinYear(a);
    DayWithinYear(b);
    if a.year < b.year {
      YearsMonotone(a.year, b.year);
    } else if b.year < a.year {
      YearsMonotone(b.year, a.year);
    } else if a.month < b.month {
      MonthsMonotone(a.year, a.month, b.month);
    } else if b.month < a.month {
      MonthsMonotone(a.year, b.month, a.month);
    }
  }

  // ---------------------------------------------------------------- the week ahead

  /** `Array.from({ length: 7 }, (_, i) => addDays(today, i))`. */
  function NextDays(today: Date): seq<Date>
    requires Valid(today)
  {
    seq(7, i requires 0 <= i < 7 => AddDays(today, i))
  }

  /** Seven valid consecutive days starting today, all different. */
  lemma NextDaysConsecutive(today: Date)
    requires Valid(today)
    ensures |NextDays(today)| == 7 && NextDays(today)[0] == today
    ensures forall i :: 0 <= i < 7 ==> Valid(NextDays(today)[i])
    ensures forall i :: 0 <= i < 6 ==> NextDays(today)[i + 1] == NextDay(NextDays(today)[i])
    ensures forall i :: 0 <= i < 7 ==> DayNumber(NextDays(today)[i]) == DayNumber(today) + i
  {
    forall i | 0 <= i < 7
      ensures DayNumber(NextDays(today)[i]) == DayNumber(today) + i
    {
      AddDaysNumber(today, i);
    }
  }

  // ---------------------------------------------------------------- ISO 8601 text

  function Pad4(n: nat): (r: string)
    requires n < 10000
    ensures |r| == 4
  {
    [DigitChar(n / 1000), DigitChar(n / 100 % 10), DigitChar(n / 10 % 10), DigitChar(n % 10)]
  }

  /** date-fns `format(d, 'yyyy-MM-dd')`: years of five or more digits are written in full. */
  function FormatIso(d: Date): (r: string)
    requires Valid(d)
  {
    (if d.year < 10000 then Pad4(d.year) else NatToString(d.year))
      + "-" + Clock.Pad2(d.month) + "-" + Clock.Pad2(d.day)
  }

  predicate IsIsoShape(s: string) {
    |s| == 10 && IsDigit(s[0]) && IsDigit(s[1]) && IsDigit(s[2]) && IsDigit(s[3]) && s[4] == '-'
      && IsDigit(s[5]) && IsDigit(s[6]) && s[7] == '-' && IsDigit(s[8]) && IsDigit(s[9])
  }

  function FieldsOf(s: string): Date
    requires IsIsoShape(s)
  {
    Date(DigitValue(s[0]) * 1000 + DigitValue(s[1]) * 100 + DigitValue(s[2]) * 10 + DigitValue(s[3]),
         DigitValue(s[5]) * 10 + DigitValue(s[6]),
         DigitValue(s[8]) * 10 + DigitValue(s[9]))
  }

  /** date-fns `parseISO` of a calendar date in extended form: `None` is an Invalid Date,
      which includes a month outside 1..12 and a day past the end of its month. */
  function ParseIso(s: string): (r: Option<Date>)
    ensures r.Some? ==> Valid(r.value) && r.value.year < 10000
  {
    if IsIsoShape(s) && Valid(FieldsOf(s)) then Some(FieldsOf(s)) else None
  }

  lemma Digits2(a: nat, b: nat)
    requires a < 10 && b < 10
    ensures (10 * a + b) / 10 == a && (10 * a + b) % 10 == b
  {
  }

  lemma Digits4(a: nat, b: nat, c: nat, e: nat)
    requires a < 10 && b < 10 && c < 10 && e < 10
    ensures var n := 1000 * a + 100 * b + 10 * c + e;
      n / 1000 == a && n / 100 % 10 == b && n / 10 % 10 == c && n % 10 == e
  {
    var n := 1000 * a + 100 * b + 10 * c + e;
    assert n / 1000 == a;
    assert n / 100 == 10 * a + b;
    assert n / 10 == 100 * a + 10 * b + c;
  }

  lemma Split4(n: nat)
    requires n < 10000
    ensures n == 1000 * (n / 1000) + 100 * (n / 100 % 10) + 10 * (n / 10 % 10) + n % 10
  {
    var a, b, c, e := n / 1000, n / 100 % 10, n / 10 % 10, n % 10;
    assert n / 10 == 10 * (n / 100) + c;
    assert n / 100 == 10 * a + b;
  }

  /** Reading back what `FormatIso` writes gives the same date. */
  lemma ParseFormatIso(d: Date)
    requires Valid(d) && d.year < 10000
    ensures ParseIso(FormatIso(d)) == Some(d)
  {
    var s := FormatIso(d);
    assert IsIsoShape(s);
    Split4(d.year);
    assert DigitValue(s[0]) == d.year / 1000 && DigitValue(s[1]) == d.year / 100 % 10;
    assert DigitValue(s[2]) == d.year / 10 % 10 && DigitValue(s[3]) == d.year % 10;
    assert FieldsOf(s).year == d.year;
    assert FieldsOf(s) == d;
  }

  /** Every text `ParseIso` accepts is the canonical text of its date. */
  lemma FormatParseIso(s: string)
    requires ParseIso(s).Some?
    ensures FormatIso(ParseIso(s).value) == s
  {
    var d := ParseIso(s).value;
    Digits4(DigitValue(s[0]), DigitValue(s[1]), DigitValue(s[2]), DigitValue(s[3]));
    Digits2(DigitValue(s[5]), DigitValue(s[6]));
    Digits2(DigitValue(s[8]), DigitValue(s[9]));
    var r := FormatIso(d);
    assert r[0] == s[0] && r[1] == s[1] && r[2] == s[2] && r[3] == s[3];
    assert r[5] == s[5] && r[6] == s[6] && r[8] == s[8] && r[9] == s[9];
    assert r == s;
  }
}
