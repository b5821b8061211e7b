/** The proleptic Gregorian calendar to the minute, on a clock with a fixed offset. */
module Calendar {

  datatype Stamp = Stamp(year: int, month: int, day: int, hour: int, minute: int)

  predicate Leap(y: int) { y % 4 == 0 && (y % 100 != 0 || y % 400 == 0) }

  function LeapDay(y: int): int { if Leap(y) then 1 else 0 }

  function MonthDays(y: int, m: int): int {
    if m == 2 then 28 + LeapDay(y)
    else if m == 4 || m == 6 || m == 9 || m == 11 then 30
    else 31
  }

  predicate Valid(s: Stamp) {
    && s.year >= 1 && 1 <= s.month <= 12 && 1 <= s.day <= MonthDays(s.year, s.month)
    && 0 <= s.hour < 24 && 0 <= s.minute < 60
  }

  /** Days before the first of January, counted from the first of January of year 1. */
  function YearStart(y: int): int { 365 * (y - 1) + (y - 1) / 4 - (y - 1) / 100 + (y - 1) / 400 }

  function CommonMonthStart(m: int): int {
    match m
    case 1 => 0
    case 2 => 31
    case 3 => 59
    case 4 => 90
    case 5 => 120
    case 6 => 151
    case 7 => 181
    case 8 => 212
    case 9 => 243
    case 10 => 273
    case 11 => 304
    case 12 => 334
    case _ => 365
  }

  /** Days of the year before the month; the thirteenth month starts the next year. */
  function MonthStart(y: int, m: int): int { CommonMonthStart(m) + if m > 2 then LeapDay(y) else 0 }

  function Ordinal(s: Stamp): int { YearStart(s.year) + MonthStart(s.year, s.month) + s.day - 1 }

  function Minutes(s: Stamp): int { 1440 * Ordinal(s) + 60 * s.hour + s.minute }

  /** Monday is 0, as datetime.weekday() has it; the first of January of year 1 was a Monday. */
  function Weekday(s: Stamp): int { Ordinal(s) % 7 }

  /** One minute later, by carrying through hour, day, month and year. */
  function NextMinute(s: Stamp): Stamp {
    if s.minute < 59 then s.(minute := s.minute + 1)
    else if s.hour < 23 then s.(hour := s.hour + 1, minute := 0)
    else if s.day < MonthDays(s.year, s.month) then s.(day := s.day + 1, hour := 0, minute := 0)
    else if s.month < 12 then Stamp(s.year, s.month + 1, 1, 0, 0)
    else Stamp(s.year + 1, 1, 1, 0, 0)
  }

  lemma YearStartStep(y: int)
    requires y >= 1
    ensures YearStart(y + 1) == YearStart(y) + 365 + LeapDay(y)
  {
    QuotientStep(y, 4);
    QuotientStep(y, 100);
    QuotientStep(y, 400);
    CenturyDivides(y);
  }

  lemma Divided(m: int, k: int, q: int, r: int)
    requires k > 0 && m == k * q + r && 0 <= r < k
    ensures m / k == q && m % k == r
  {
    var d := m / k - q;
    assert k * d == r - m % k;
    MultipleFar(k, d);
  }

  lemma MultipleFar(k: int, d: int)
    requires k > 0
    ensures d >= 1 ==> k * d >= k
    ensures d <= -1 ==> k * d <= -k
  {
  }

  function Divides(k: int, y: int): int
    requires k > 0
  {
    if y % k == 0 then 1 else 0
  }

  lemma QuotientStep(y: int, k: int)
    requires k > 1
    ensures y / k == (y - 1) / k + Divides(k, y)
  {
    var q, r := (y - 1) / k, (y - 1) % k;
    if r == k - 1 {
      assert y == k * (q + 1) by { assert k * (q + 1) == k * q + k; }
      Divided(y, k, q + 1, 0);
    } else {
      Divided(y, k, q, r + 1);
    }
  }

  lemma CenturyDivides(y: int)
    ensures y % 100 == 0 ==> y % 4 == 0
    ensures y % 400 == 0 ==> y % 100 == 0
  {
    if y % 100 == 0 { Divided(y, 4, 25 * (y / 100), 0); }
    if y % 400 == 0 { Divided(y, 100, 4 * (y / 400), 0); }
  }

  lemma MonthStartStep(y: int, m: int)
    requires 1 <= m <= 12
    ensures MonthStart(y, m + 1) == MonthStart(y, m) + MonthDays(y, m)
  {
  }

  /** The carry arithmetic steps the timeline by exactly one minute, over month ends and leap days. */
  lemma NextMinuteIsNext(s: Stamp)
    requires Valid(s)
    ensures Valid(NextMinute(s)) && Minutes(NextMinute(s)) == Minutes(s) + 1
  {
    YearStartStep(s.year);
    MonthStartStep(s.year, s.month);
  }

  function After(s: Stamp, n: nat): Stamp { if n == 0 then s else NextMinute(After(s, n - 1)) }

  lemma {:induction false} AfterIsLater(s: Stamp, n: nat)
    requires Valid(s)
    ensures Valid(After(s, n)) && Minutes(After(s, n)) == Minutes(s) + n
  {
    if n == 0 {
    } else {
      AfterIsLater(s, n - 1);
      NextMinuteIsNext(After(s, n - 1));
    }
  }

  lemma {:induction false} YearsInOrder(y: int, z: int)
    requires 1 <= y < z
    ensures YearStart(y) + 365 + LeapDay(y) <= YearStart(z)
    decreases z - y
  {
    YearStartStep(y);
    if y + 1 < z { YearsInOrder(y + 1, z); }
  }

  lemma {:induction false} MonthsInOrder(y: int, m: int, n: int)
    requires 1 <= m < n <= 13
    ensures MonthStart(y, m) + MonthDays(y, m) <= MonthStart(y, n)
    decreases n - m
  {
  }

  lemma DayInYear(s: Stamp)
    requires Valid(s)
    ensures YearStart(s.year) <= Ordinal(s) < YearStart(s.year) + 365 + LeapDay(s.year)
  {
  }

  /** Calendar order is timeline order. */
  lemma OrdinalInOrder(s: Stamp, t: Stamp)
    requires Valid(s) && Valid(t)
    requires s.year < t.year || (s.year == t.year && (s.month < t.month || (s.month == t.month && s.day < t.day)))
    ensures Ordinal(s) < Ordinal(t)
  {
    DayInYear(s);
    DayInYear(t);
    if s.year < t.year {
      YearsInOrder(s.year, t.year);
    } else if s.month < t.month {
      MonthsInOrder(s.year, s.month, t.month);
    }
  }

  /** A valid stamp is determined by its place on the timeline. */
  lemma StampUnique(s: Stamp, t: Stamp)
    requires Valid(s) && Valid(t) && Minutes(s) == Minutes(t)
    ensures s == t
  {
    var a, b := 60 * s.hour + s.minute, 60 * t.hour + t.minute;
    assert 0 <= a < 1440 && 0 <= b < 1440;
    assert Ordinal(s) == Ordinal(t) && a == b;
    if s.year != t.year || s.month != t.month || s.day != t.day {
      if s.year < t.year || (s.year == t.year && (s.month < t.month || (s.month == t.month && s.day < t.day))) {
        OrdinalInOrder(s, t);
      } else {
        OrdinalInOrder(t, s);
      }
    }
  }

  /** Every valid later stamp is reached by stepping. */
  lemma LaterIsAfter(s: Stamp, t: Stamp)
    requires Valid(s) && Valid(t) && Minutes(s) <= Minutes(t)
    ensures After(s, Minutes(t) - Minutes(s)) == t
  {
    AfterIsLater(s, Minutes(t) - Minutes(s));
    StampUnique(After(s, Minutes(t) - Minutes(s)), t);
  }

  lemma ClockFields(s: Stamp)
    requires Valid(s)
    ensures s.minute == Minutes(s) % 60 && s.hour == Minutes(s) / 60 % 24 && Weekday(s) == Minutes(s) / 1440 % 7
  {
    var m, hours := Minutes(s), 24 * Ordinal(s) + s.hour;
    assert m == 60 * hours + s.minute;
    Divided(m, 60, hours, s.minute);
    Divided(hours, 24, Ordinal(s), s.hour);
    Divided(m, 1440, Ordinal(s), 60 * s.hour + s.minute);
  }

  // ----- the calendar measured from outside -----------------------------------------

  /** The rhyme of the month lengths as a formula, with the leap years of the Gregorian reform. */
  lemma MonthLengths(y: int, m: int)
    requires 1 <= m <= 12
    ensures m != 2 ==> MonthDays(y, m) == 30 + (m + m / 8) % 2
    ensures MonthDays(y, 2) == if y % 16 == 0 || (y % 4 == 0 && y % 25 != 0) then 29 else 28
  {
    if y % 100 == 0 { Divided(y, 25, 4 * (y / 100), 0); }
    if y % 400 == 0 { Divided(y, 16, 25 * (y / 400), 0); }
    if y % 16 == 0 { Divided(y, 4, 4 * (y / 16), 0); }
    if y % 4 == 0 && y % 25 == 0 {
      HundredDivides(y);
    }
    if y % 16 == 0 && y % 25 == 0 { FourHundredDivides(y); }
  }

  lemma HundredDivides(y: int)
    requires y % 4 == 0 && y % 25 == 0
    ensures y % 100 == 0
  {
    Divided(y, 100, y / 4 - 6 * (y / 25), 0);
  }

  lemma FourHundredDivides(y: int)
    requires y % 16 == 0 && y % 25 == 0
    ensures y % 400 == 0
  {
    Divided(y, 400, 9 * (y / 16) - 14 * (y / 25), 0);
  }

  /** Counting minutes from Monday, the first of January of year 1: the stamp reached and the day of the week there. */
  function Walk(n: nat): (Stamp, int) {
    if n == 0 then (Stamp(1, 1, 1, 0, 0), 0)
    else
      var (s, day) := Walk(n - 1);
      var t := NextMinute(s);
      (t, if t.day == s.day then day else (day + 1) % 7)
  }

  /** The weekday changes exactly when the day does, to the next of the seven. */
  lemma WeekdaySteps(s: Stamp)
    requires Valid(s)
    ensures Weekday(NextMinute(s)) == if NextMinute(s).day == s.day then Weekday(s) else (Weekday(s) + 1) % 7
    ensures Weekday(Stamp(1, 1, 1, s.hour, s.minute)) == 0
  {
    hide Ordinal, NextMinute;
    OrdinalSteps(s);
    FirstDay(s.hour, s.minute);
    DayLater(Ordinal(s));
  }

  lemma FirstDay(hour: int, minute: int)
    ensures Ordinal(Stamp(1, 1, 1, hour, minute)) == 0
  {
  }

  lemma DayLater(n: int)
    ensures (n + 1) % 7 == (n % 7 + 1) % 7
  {
  }

  lemma OrdinalSteps(s: Stamp)
    requires Valid(s)
    ensures Ordinal(NextMinute(s)) == if NextMinute(s).day == s.day then Ordinal(s) else Ordinal(s) + 1
  {
    hide YearStart, CommonMonthStart, MonthStart, Leap;
    YearStartStep(s.year);
    MonthStartStep(s.year, s.month);
    FirstMonth(s.year + 1);
    FirstMonth(s.year);
  }

  lemma FirstMonth(y: int)
    ensures MonthStart(y, 1) == 0 && MonthStart(y, 13) == 365 + LeapDay(y)
  {
  }

  lemma {:induction false} WalkIsAfter(n: nat)
    ensures Walk(n).0 == After(Stamp(1, 1, 1, 0, 0), n) && Valid(Walk(n).0) && Walk(n).1 == Weekday(Walk(n).0)
  {
    if n == 0 {
    } else {
      WalkIsAfter(n - 1);
      NextMinuteIsNext(Walk(n - 1).0);
      WeekdaySteps(Walk(n - 1).0);
    }
  }

  /** Every date has the weekday one counts from that Monday, and is counted once. */
  lemma WeekdayIsCounted(s: Stamp)
    requires Valid(s)
    ensures Minutes(s) >= 0 && Walk(Minutes(s)) == (s, Weekday(s))
  {
    hide Valid, Minutes, Weekday;
    var first := Stamp(1, 1, 1, 0, 0);
    FirstMinute(s);
    LaterIsAfter(first, s);
    WalkIsAfter(Minutes(s));
  }

  lemma FirstMinute(s: Stamp)
    requires Valid(s)
    ensures Valid(Stamp(1, 1, 1, 0, 0)) && Minutes(Stamp(1, 1, 1, 0, 0)) == 0 <= Minutes(s)
  {
    FirstDay(0, 0);
    hide Ordinal;
    NoEarlierDay(s);
  }

  lemma NoEarlierDay(s: Stamp)
    requires Valid(s)
    ensures 0 <= Ordinal(s)
  {
    hide YearStart;
    DayInYear(s);
    YearStartNonNegative(s.year);
  }

  lemma {:induction false} YearStartNonNegative(y: int)
    requires y >= 1
    ensures 0 <= YearStart(y)
    decreases y
  {
    if y == 1 {
    } else {
      YearStartNonNegative(y - 1);
      YearStartStep(y - 1);
    }
  }
}
