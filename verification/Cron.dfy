/** The five-field cron evaluator and its minute-by-minute search. */
module Cron {
  import opened MemoryModel
  import opened Calendar

  /** The range of a part: "*" or empty, "a-b" or "a", or text int() refuses. */
  datatype Span = Any | Between(first: int, last: int) | BadNumber

  /** One comma-separated part; the step is None when int() refuses its text. */
  datatype Part = Part(span: Span, step: Option<int>)

  type Field = seq<Part>

  datatype Schedule = Schedule(minute: Field, hour: Field, dom: Field, month: Field, dow: Field)

  /** A match, no match, or an exception raised while evaluating. */
  datatype Verdict = Yes | No | Crash

  /** The values a part runs over: a star, or a part without a range, takes the whole field. */
  function Range(span: Span, lo: int, hi: int): (int, int) {
    if span.Between? then (span.first, span.last) else (lo, hi)
  }

  function PartMatches(p: Part, value: int, lo: int, hi: int): Verdict {
    if p.step.None? || p.span.BadNumber? then Crash
    else
      var (first, last) := Range(p.span, lo, hi);
      if !(first <= value <= last) then No
      else if p.step.value == 0 then Crash
      else if (value - first) % p.step.value == 0 then Yes
      else No
  }

  /** Parts are tried in order and later ones not looked at once one matches. */
  function FieldMatches(f: Field, value: int, lo: int, hi: int): Verdict {
    if f == [] then No
    else
      var v := PartMatches(f[0], value, lo, hi);
      if v == No then FieldMatches(f[1..], value, lo, hi) else v
  }

  method MatchField(f: Field, value: int, lo: int, hi: int) returns (v: Verdict)
    ensures v == FieldMatches(f, value, lo, hi)
  {
    for i := 0 to |f|
      invariant FieldMatches(f, value, lo, hi) == FieldMatches(f[i..], value, lo, hi)
    {
      var part := f[i];
      if part.step.None? || part.span.BadNumber? {
        return Crash;
      }
      var first, last := lo, hi;
      if part.span.Between? {
        first, last := part.span.first, part.span.last;
      }
      if first <= value <= last {
        if part.step.value == 0 {
          return Crash;
        }
        if (value - first) % part.step.value == 0 {
          return Yes;
        }
      }
      assert f[i..][1..] == f[i + 1..];
    }
    assert f[|f|..] == [];
    return No;
  }

  function Both(a: Verdict, b: Verdict): Verdict { if a == Yes then b else a }

  function Either(a: Verdict, b: Verdict): Verdict { if a == No then b else a }

  function CronDow(s: Stamp): int { (Weekday(s) + 1) % 7 }

  /** Sunday is tried as 0 and as 7. */
  function DowMatches(f: Field, dow: int): Verdict {
    Either(FieldMatches(f, dow, 0, 6), FieldMatches(f, if dow == 0 then 7 else dow, 0, 7))
  }

  /** Day of month and day of week must both match. */
  function Matches(c: Schedule, s: Stamp): Verdict {
    Both(FieldMatches(c.minute, s.minute, 0, 59),
    Both(FieldMatches(c.hour, s.hour, 0, 23),
    Both(FieldMatches(c.dom, s.day, 1, 31),
    Both(FieldMatches(c.month, s.month, 1, 12),
         DowMatches(c.dow, CronDow(s))))))
  }

  /** Evaluates the fields in order, and none after one that settles the answer. */
  method MatchCron(c: Schedule, s: Stamp) returns (v: Verdict)
    ensures v == Matches(c, s)
  {
    hide FieldMatches;
    v := MatchField(c.minute, s.minute, 0, 59);
    if v == Yes {
      v := MatchField(c.hour, s.hour, 0, 23);
    }
    if v == Yes {
      v := MatchField(c.dom, s.day, 1, 31);
    }
    if v == Yes {
      v := MatchField(c.month, s.month, 1, 12);
    }
    if v == Yes {
      var dow := CronDow(s);
      v := MatchField(c.dow, dow, 0, 6);
      if v == No {
        v := MatchField(c.dow, if dow == 0 then 7 else dow, 0, 7);
      }
    }
  }

  /** The n-th value of the progression from `first` in steps of either sign. */
  predicate Nth(first: int, step: int, n: nat, value: int) { value == first + n * (if step < 0 then -step else step) }

  /** The value lies in the arithmetic progression of a part, up to its end. */
  ghost predicate InProgression(p: Part, value: int, lo: int, hi: int) {
    && p.step.Some?
    && value <= (if p.span.Between? then p.span.last else hi)
    && Reaches(if p.span.Between? then p.span.first else lo, p.step.value, value)
  }

  ghost predicate Reaches(first: int, step: int, value: int) { exists n: nat :: Nth(first, step, n, value) }

  lemma StepsFrom(first: int, step: int, value: int)
    requires step != 0
    ensures Reaches(first, step, value) <==> first <= value && (value - first) % step == 0
  {
    var size := if step < 0 then -step else step;
    var d := value - first;
    assert d % step == d % size;
    if d >= 0 && d % size == 0 {
      assert d == d / size * size;
      assert Nth(first, step, d / size, value);
    }
    if n: nat :| Nth(first, step, n, value) {
      Divided(d, size, n, 0);
    }
  }

  lemma PartExactly(p: Part, value: int, lo: int, hi: int)
    requires GoodPart(p)
    ensures PartMatches(p, value, lo, hi) == if InProgression(p, value, lo, hi) then Yes else No
  {
    StepsFrom(Range(p.span, lo, hi).0, p.step.value, value);
  }

  /**
   * A field is a union of arithmetic progressions: where nothing can raise it matches exactly the
   * values some part reaches from its start, in its steps, up to its end.
   */
  lemma {:induction false} FieldIsUnion(f: Field, value: int, lo: int, hi: int)
    requires GoodField(f)
    ensures FieldMatches(f, value, lo, hi) == Yes <==> exists p :: p in f && InProgression(p, value, lo, hi)
  {
    hide InProgression, PartMatches;
    if f == [] {
    } else {
      assert GoodPart(f[0]);
      PartExactly(f[0], value, lo, hi);
      FieldIsUnion(f[1..], value, lo, hi);
      assert f == [f[0]] + f[1..];
    }
  }

  const YEAR_CAP := 366 * 24 * 60

  datatype Next = At(when: Stamp) | NoMatchWithinYear | EvaluationError

  /** Nothing matches from the minute after `now` up to, not including, minute `end`. */
  ghost predicate Quiet(c: Schedule, now: Stamp, end: int) {
    forall t :: Valid(t) && Minutes(now) < Minutes(t) < end ==> Matches(c, t) == No
  }

  /** The first minute of the coming year that does not plainly fail to match gives this verdict. */
  ghost predicate FirstVerdict(c: Schedule, now: Stamp, t: Stamp, v: Verdict) {
    && Valid(t) && Minutes(now) < Minutes(t) <= Minutes(now) + YEAR_CAP
    && v != No && Matches(c, t) == v && Quiet(c, now, Minutes(t))
  }

  /**
   * The search: the least matching minute strictly after `now`; failure when the next 366 days
   * hold no match; an error when the evaluation raises before any match.
   */
  method CronNext(c: Schedule, now: Stamp) returns (r: Next)
    requires Valid(now)
    ensures r.At? ==> FirstVerdict(c, now, r.when, Yes)
    ensures r.EvaluationError? ==> exists t :: FirstVerdict(c, now, t, Crash)
    ensures r.NoMatchWithinYear? ==> Quiet(c, now, Minutes(now) + YEAR_CAP + 1)
    ensures forall d :: r.At? && 0 <= d <= 7 && c.dow == Exactly(d) ==> OnWeekday(r.when, d)
  {
    hide Matches, Valid, Minutes, NextMinute;
    var dt := NextMinute(now);
    NextMinuteIsNext(now);
    NothingBetween(c, now, dt);
    for i := 0 to YEAR_CAP
      invariant Valid(dt) && Minutes(dt) == Minutes(now) + 1 + i
      invariant Quiet(c, now, Minutes(dt))
    {
      var v := MatchCron(c, dt);
      if v == Yes {
        AnswersOnWeekday(c, dt);
        return At(dt);
      }
      if v == Crash {
        assert FirstVerdict(c, now, dt, Crash);
        return EvaluationError;
      }
      QuietStep(c, now, dt);
      NextMinuteIsNext(dt);
      dt := NextMinute(dt);
    }
    return NoMatchWithinYear;
  }

  /** Counted from Monday, the first of January of year 1, with 0 and 7 for Sunday. */
  ghost predicate OnWeekday(s: Stamp, d: int) { exists n: nat :: Walk(n) == (s, (d + 6) % 7) }

  /** A schedule for one day of the week answers only on that day. */
  lemma AnswersOnWeekday(c: Schedule, s: Stamp)
    requires Valid(s) && Matches(c, s) == Yes
    ensures forall d :: 0 <= d <= 7 && c.dow == Exactly(d) ==> OnWeekday(s, d)
  {
    hide Valid, Weekday, Walk, FieldMatches, DowMatches;
    WeekdayIsCounted(s);
    WeekdayRange(s);
    forall d | 0 <= d <= 7 && c.dow == Exactly(d) ensures OnWeekday(s, d) {
      OneWeekday(d, CronDow(s));
      assert CronDow(s) == d % 7;
      assert Weekday(s) == (d + 6) % 7;
      assert Walk(Minutes(s)) == (s, (d + 6) % 7);
    }
  }

  lemma OneWeekday(d: int, weekday: int)
    requires 0 <= d <= 7 && 0 <= weekday < 7 && DowMatches(Exactly(d), weekday) == Yes
    ensures weekday == d % 7
  {
    hide FieldMatches;
    OnlyItself(d, weekday, 0, 6);
    OnlyItself(d, if weekday == 0 then 7 else weekday, 0, 7);
  }

  lemma WeekdayRange(s: Stamp)
    ensures 0 <= Weekday(s) < 7
  {
  }

  ghost predicate InField(f: Field, value: int, lo: int, hi: int) {
    exists p :: p in f && InProgression(p, value, lo, hi)
  }

  /**
   * What a match is: minute, hour, day and month each lie in their field, over the ranges
   * of the calendar, and so does the weekday counted from Sunday, which may be called 0 or 7.
   */
  lemma MatchesExactly(c: Schedule, s: Stamp, weekday: int)
    requires GoodSchedule(c) && Valid(s) && OnWeekday(s, weekday) && 0 <= weekday < 7
    ensures Matches(c, s) == Yes <==>
              && InField(c.minute, s.minute, 0, 59) && InField(c.hour, s.hour, 0, 23)
              && InField(c.dom, s.day, 1, 31) && InField(c.month, s.month, 1, 12)
              && (InField(c.dow, weekday, 0, 6) || InField(c.dow, if weekday == 0 then 7 else weekday, 0, 7))
  {
    hide FieldMatches, InField, Walk, Weekday, Valid, Minutes;
    CountedDow(s, weekday);
    FieldSays(c.minute, s.minute, 0, 59);
    FieldSays(c.hour, s.hour, 0, 23);
    FieldSays(c.dom, s.day, 1, 31);
    FieldSays(c.month, s.month, 1, 12);
    FieldSays(c.dow, weekday, 0, 6);
    FieldSays(c.dow, if weekday == 0 then 7 else weekday, 0, 7);
  }

  lemma CountedDow(s: Stamp, weekday: int)
    requires Valid(s) && OnWeekday(s, weekday) && 0 <= weekday < 7
    ensures CronDow(s) == weekday
  {
    hide Valid, Walk, Weekday;
    var n: nat :| Walk(n) == (s, (weekday + 6) % 7);
    WalkIsAfter(n);
  }

  lemma FieldSays(f: Field, value: int, lo: int, hi: int)
    requires GoodField(f)
    ensures FieldMatches(f, value, lo, hi) == if InField(f, value, lo, hi) then Yes else No
  {
    hide FieldMatches, InProgression;
    FieldIsUnion(f, value, lo, hi);
    GoodFieldNeverRaises(f, value, lo, hi);
  }

  lemma NothingBetween(c: Schedule, now: Stamp, dt: Stamp)
    requires Minutes(dt) == Minutes(now) + 1
    ensures Quiet(c, now, Minutes(dt))
  {
  }

  lemma QuietStep(c: Schedule, now: Stamp, dt: Stamp)
    requires Valid(dt) && Quiet(c, now, Minutes(dt)) && Matches(c, dt) == No
    ensures Quiet(c, now, Minutes(dt) + 1)
  {
    hide Matches;
    forall t | Valid(t) && Minutes(now) < Minutes(t) < Minutes(dt) + 1 ensures Matches(c, t) == No {
      if Minutes(t) == Minutes(dt) { StampUnique(t, dt); }
    }
  }

  /** The three outcomes exclude one another, and each is determined: the search answers one way only. */
  lemma OutcomeUnique(c: Schedule, now: Stamp, t: Stamp, v: Verdict, t': Stamp, v': Verdict)
    requires FirstVerdict(c, now, t, v)
    ensures FirstVerdict(c, now, t', v') ==> t == t' && v == v'
    ensures !Quiet(c, now, Minutes(now) + YEAR_CAP + 1)
  {
    hide Matches, Minutes, Valid;
    if FirstVerdict(c, now, t', v') && Minutes(t) == Minutes(t') {
      StampUnique(t, t');
    }
  }

  // ----- when the search cannot fail --------------------------------------------

  predicate GoodPart(p: Part) { p.step.Some? && p.step.value != 0 && !p.span.BadNumber? }

  predicate GoodField(f: Field) { forall p :: p in f ==> GoodPart(p) }

  /** Nothing in the expression can raise. */
  predicate GoodSchedule(c: Schedule) {
    GoodField(c.minute) && GoodField(c.hour) && GoodField(c.dom) && GoodField(c.month) && GoodField(c.dow)
  }

  lemma {:induction false} GoodFieldNeverRaises(f: Field, value: int, lo: int, hi: int)
    requires GoodField(f)
    ensures FieldMatches(f, value, lo, hi) != Crash
  {
    if f == [] {
    } else {
      assert GoodPart(f[0]);
      GoodFieldNeverRaises(f[1..], value, lo, hi);
    }
  }

  lemma GoodScheduleNeverRaises(c: Schedule, s: Stamp)
    requires GoodSchedule(c)
    ensures Matches(c, s) != Crash
  {
    GoodFieldNeverRaises(c.minute, s.minute, 0, 59);
    GoodFieldNeverRaises(c.hour, s.hour, 0, 23);
    GoodFieldNeverRaises(c.dom, s.day, 1, 31);
    GoodFieldNeverRaises(c.month, s.month, 1, 12);
    GoodFieldNeverRaises(c.dow, CronDow(s), 0, 6);
    GoodFieldNeverRaises(c.dow, if CronDow(s) == 0 then 7 else CronDow(s), 0, 7);
  }

  const STAR: Field := [Part(Any, Some(1))]

  lemma StarMatches(value: int, lo: int, hi: int)
    requires lo <= value <= hi
    ensures FieldMatches(STAR, value, lo, hi) == Yes
  {
  }

  /** One witness in the window, in an expression that cannot raise: the search finds a minute no later. */
  lemma WitnessFound(c: Schedule, now: Stamp, t: Stamp)
    requires GoodSchedule(c) && Valid(now) && Valid(t) && Matches(c, t) == Yes
    requires Minutes(now) < Minutes(t) <= Minutes(now) + YEAR_CAP
    ensures exists s :: FirstVerdict(c, now, s, Yes) && Minutes(s) <= Minutes(t)
  {
    hide Matches, Valid, Minutes;
    var n := Minutes(t) - Minutes(now);
    var s := Earliest(c, now, t, n);
  }

  lemma {:induction false} Earliest(c: Schedule, now: Stamp, t: Stamp, n: nat) returns (s: Stamp)
    requires GoodSchedule(c) && Valid(now) && Valid(t) && Matches(c, t) == Yes
    requires Minutes(now) < Minutes(t) <= Minutes(now) + YEAR_CAP && n == Minutes(t) - Minutes(now)
    ensures FirstVerdict(c, now, s, Yes) && Minutes(s) <= Minutes(t)
    decreases n
  {
    hide Matches, Valid, Minutes, GoodSchedule;
    if Quiet(c, now, Minutes(t)) {
      s := t;
    } else {
      var u :| Valid(u) && Minutes(now) < Minutes(u) < Minutes(t) && Matches(c, u) != No;
      GoodScheduleNeverRaises(c, u);
      s := Earliest(c, now, u, Minutes(u) - Minutes(now));
    }
  }

  predicate Admits(f: Field, value: int, lo: int, hi: int) { FieldMatches(f, value, lo, hi) == Yes }

  /**
   * Weekly schedules are found within seven days: with "*" for day and month and some admitted
   * minute, hour and day of week, from any instant, over month ends and leap days.
   */
  lemma WeeklyFoundInAWeek(c: Schedule, now: Stamp, minute: int, hour: int, dow: int)
    requires GoodSchedule(c) && Valid(now) && c.dom == STAR && c.month == STAR
    requires 0 <= minute < 60 && 0 <= hour < 24 && 0 <= dow < 7
    requires Admits(c.minute, minute, 0, 59) && Admits(c.hour, hour, 0, 23) && DowMatches(c.dow, dow) == Yes
    ensures exists s :: FirstVerdict(c, now, s, Yes) && Minutes(s) <= Minutes(now) + 7 * 1440
  {
    hide FirstVerdict, GoodSchedule, Minutes, Matches, FieldMatches, DowMatches, After;
    var target := 1440 * ((dow + 6) % 7) + 60 * hour + minute;
    var n := (target - Minutes(now) - 1) % 10080 + 1;
    var t := After(now, n);
    AfterIsLater(now, n);
    ClockFields(t);
    WeekResidue(Minutes(now), target, n);
    WeekFields(Minutes(t), dow, hour, minute);
    WeeklyMatch(c, t);
    WitnessFound(c, now, t);
  }

  lemma WeeklyMatch(c: Schedule, t: Stamp)
    requires Valid(t) && c.dom == STAR && c.month == STAR
    requires Admits(c.minute, t.minute, 0, 59) && Admits(c.hour, t.hour, 0, 23) && DowMatches(c.dow, CronDow(t)) == Yes
    ensures Matches(c, t) == Yes
  {
  }

  lemma WeekResidue(m: int, target: int, n: int)
    requires 0 <= target < 10080 && n == (target - m - 1) % 10080 + 1
    ensures (m + n) % 10080 == target
  {
    var x := target - m - 1;
    Divided(m + n, 10080, -(x / 10080), target);
  }

  lemma WeekFields(m: int, dow: int, hour: int, minute: int)
    requires 0 <= minute < 60 && 0 <= hour < 24 && 0 <= dow < 7
    requires m % 10080 == 1440 * ((dow + 6) % 7) + 60 * hour + minute
    ensures m % 60 == minute && m / 60 % 24 == hour && (m / 1440 % 7 + 1) % 7 == dow
  {
    var q, d := m / 10080, (dow + 6) % 7;
    var days := 7 * q + d;
    assert m == 1440 * days + 60 * hour + minute;
    Divided(m, 60, 24 * days + hour, minute);
    Divided(24 * days + hour, 24, days, hour);
    Divided(m, 1440, days, 60 * hour + minute);
    Divided(days, 7, q, d);
  }

  /**
   * Yearly schedules are found within 366 days: with "*" for day of week and an admitted month
   * and day that exist in every year.
   */
  lemma YearlyFoundInAYear(c: Schedule, now: Stamp, minute: int, hour: int, day: int, month: int)
    requires GoodSchedule(c) && Valid(now) && c.dow == STAR
    requires 0 <= minute < 60 && 0 <= hour < 24 && 1 <= month <= 12 && 1 <= day <= MonthDays(1, month)
    requires Admits(c.minute, minute, 0, 59) && Admits(c.hour, hour, 0, 23)
    requires Admits(c.dom, day, 1, 31) && Admits(c.month, month, 1, 12)
    ensures exists s :: FirstVerdict(c, now, s, Yes)
  {
    hide FirstVerdict, GoodSchedule, FieldMatches;
    var y := now.year;
    var t, t' := Stamp(y, month, day, hour, minute), Stamp(y + 1, month, day, hour, minute);
    DowStar(t);
    DowStar(t');
    DayInYear(now);
    DayInYear(t);
    DayInYear(t');
    YearStartStep(y);
    assert !Leap(1);
    if Minutes(now) < Minutes(t) {
      WitnessFound(c, now, t);
    } else {
      assert Minutes(t') - Minutes(t) <= YEAR_CAP;
      WitnessFound(c, now, t');
    }
  }

  lemma DowStar(s: Stamp)
    ensures DowMatches(STAR, CronDow(s)) == Yes
  {
  }

  predicate OnlyAt(f: Field, value: int, lo: int, hi: int) {
    forall v :: lo <= v <= hi ==> FieldMatches(f, v, lo, hi) == if v == value then Yes else No
  }

  /** This year's date is still to come, and nothing but the weekday could keep it from matching. */
  predicate Upcoming(c: Schedule, now: Stamp, t: Stamp) {
    && Valid(t) && Minutes(now) < Minutes(t) <= Minutes(now) + YEAR_CAP
    && DowMatches(c.dow, CronDow(t)) == Yes
  }

  /**
   * A schedule for one date of the year, on any weekdays: since the day fields are ANDed, it is
   * found exactly when the date of this year, the next or the one after exists, lies within the
   * coming 366 days and falls on an admitted weekday. In most years no admitted date may exist.
   */
  lemma FixedDateSchedule(c: Schedule, now: Stamp, minute: int, hour: int, day: int, month: int)
    requires GoodSchedule(c) && Valid(now)
    requires OnlyAt(c.minute, minute, 0, 59) && OnlyAt(c.hour, hour, 0, 23)
    requires OnlyAt(c.dom, day, 1, 31) && OnlyAt(c.month, month, 1, 12)
    requires 0 <= minute < 60 && 0 <= hour < 24 && 1 <= day <= 31 && 1 <= month <= 12
    ensures (exists s :: FirstVerdict(c, now, s, Yes)) <==>
              || Upcoming(c, now, Stamp(now.year, month, day, hour, minute))
              || Upcoming(c, now, Stamp(now.year + 1, month, day, hour, minute))
              || Upcoming(c, now, Stamp(now.year + 2, month, day, hour, minute))
  {
    hide FieldMatches, GoodSchedule, FirstVerdict, Minutes, DowMatches, CronDow;
    forall y | Upcoming(c, now, Stamp(y, month, day, hour, minute)) ensures exists s :: FirstVerdict(c, now, s, Yes) {
      var t := Stamp(y, month, day, hour, minute);
      DateMatches(c, t);
      WitnessFound(c, now, t);
    }
    if s :| FirstVerdict(c, now, s, Yes) {
      DateOnly(c, now, s, minute, hour, day, month);
      WindowYear(now, s);
    }
  }

  /**
   * Unlike the crontab utility: nine o'clock on the first of January, if a Monday, is not found from 2
   * January 2024.
   */
  lemma NewYearsMondayFails()
    ensures var c := Schedule(Exactly(0), Exactly(9), Exactly(1), Exactly(1), Exactly(1));
            GoodSchedule(c) && !exists s :: FirstVerdict(c, Stamp(2024, 1, 2, 0, 0), s, Yes)
  {
    hide FirstVerdict, FieldMatches;
    var c, now := Schedule(Exactly(0), Exactly(9), Exactly(1), Exactly(1), Exactly(1)), Stamp(2024, 1, 2, 0, 0);
    forall n, v, lo, hi ensures FieldMatches(Exactly(n), v, lo, hi) == if v == n then Yes else No {
      OnlyItself(n, v, lo, hi);
    }
    var t, t' := Stamp(2025, 1, 1, 9, 0), Stamp(2026, 1, 1, 9, 0);
    assert Minutes(t') > Minutes(now) + YEAR_CAP;
    assert CronDow(t) == 3;
    FixedDateSchedule(c, now, 0, 9, 1, 1);
  }

  lemma OnlyItself(n: int, v: int, lo: int, hi: int)
    ensures FieldMatches(Exactly(n), v, lo, hi) == if v == n then Yes else No
  {
  }

  lemma DateMatches(c: Schedule, t: Stamp)
    requires Valid(t) && DowMatches(c.dow, CronDow(t)) == Yes
    requires OnlyAt(c.minute, t.minute, 0, 59) && OnlyAt(c.hour, t.hour, 0, 23)
    requires OnlyAt(c.dom, t.day, 1, 31) && OnlyAt(c.month, t.month, 1, 12)
    ensures Matches(c, t) == Yes
  {
    hide FieldMatches, DowMatches, CronDow;
    assert t.day <= 31;
  }

  lemma DateOnly(c: Schedule, now: Stamp, s: Stamp, minute: int, hour: int, day: int, month: int)
    requires FirstVerdict(c, now, s, Yes)
    requires OnlyAt(c.minute, minute, 0, 59) && OnlyAt(c.hour, hour, 0, 23)
    requires OnlyAt(c.dom, day, 1, 31) && OnlyAt(c.month, month, 1, 12)
    ensures s == Stamp(s.year, month, day, hour, minute) && Upcoming(c, now, s)
  {
    hide FieldMatches, DowMatches, CronDow;
    assert s.day <= 31;
  }

  /** A minute within 366 days of now lies in this year, the next, or at the start of the one after. */
  lemma WindowYear(now: Stamp, s: Stamp)
    requires Valid(now) && Valid(s) && Minutes(now) < Minutes(s) <= Minutes(now) + YEAR_CAP
    ensures now.year <= s.year <= now.year + 2
    ensures s.year == now.year + 2 ==> s.month == 1
  {
    DayInYear(now);
    DayInYear(s);
    YearStartStep(now.year);
    YearStartStep(now.year + 1);
    if s.year < now.year {
      YearsInOrder(s.year, now.year);
    } else if s.year > now.year + 1 {
      YearsInOrder(now.year, now.year + 1);
      if s.year > now.year + 2 { YearsInOrder(now.year + 2, s.year); }
    }
  }

  /**
   * A leap-day schedule fails unless a leap day lies in the window: it is found exactly when this
   * year's is still to come, or next year's falls within 366 days.
   */
  lemma LeapDaySchedule(c: Schedule, now: Stamp, minute: int, hour: int)
    requires GoodSchedule(c) && Valid(now) && c.dow == STAR && 0 <= minute < 60 && 0 <= hour < 24
    requires OnlyAt(c.minute, minute, 0, 59) && OnlyAt(c.hour, hour, 0, 23)
    requires OnlyAt(c.dom, 29, 1, 31) && OnlyAt(c.month, 2, 1, 12)
    ensures (exists s :: FirstVerdict(c, now, s, Yes)) <==>
              || (Leap(now.year) && Minutes(now) < Minutes(Stamp(now.year, 2, 29, hour, minute)))
              || (Leap(now.year + 1) && Minutes(Stamp(now.year + 1, 2, 29, hour, minute)) <= Minutes(now) + YEAR_CAP)
  {
    hide FieldMatches, GoodSchedule, FirstVerdict;
    var y := now.year;
    var t, t' := Stamp(y, 2, 29, hour, minute), Stamp(y + 1, 2, 29, hour, minute);
    var t'' := Stamp(y + 2, 2, 29, hour, minute);
    FixedDateSchedule(c, now, minute, hour, 29, 2);
    DowStar(t);
    DowStar(t');
    DayInYear(now);
    YearStartStep(y);
    if Leap(y) { DayInYear(t); }
    if Leap(y + 1) { DayInYear(t'); }
    if Upcoming(c, now, t'') { WindowYear(now, t''); }
  }

  // ----- the shapes natural language compiles to ----------------------------------

  function Exactly(n: int): Field { [Part(Between(n, n), Some(1))] }

  /** What the text parser captured: hour, optional minute, optional am/pm. */
  datatype Captured = Nothing | Time(h: nat, m: Option<nat>, pm: Option<bool>)

  function ParseTime(t: Captured, defaultHour: nat, defaultMinute: nat): (r: (int, int))
    requires defaultHour < 24 && defaultMinute < 60
    ensures 0 <= r.0 < 24 && 0 <= r.1 < 60
  {
    match t
    case Nothing => (defaultHour, defaultMinute)
    case Time(h, m, pm) =>
      var h' := if pm == Some(true) && h < 12 then h + 12 else if pm == Some(false) && h == 12 then 0 else h;
      (h' % 24, (if m.Some? then m.value else 0) % 60)
  }

  datatype Phrase =
    | Hourly
    | Daily(hour: int)
    | OnWeekday(t: Captured, dow: int)
    | Weekdays(t: Captured)
    | DailyAt(t: Captured)

  predicate Sensible(p: Phrase) {
    match p
    case Daily(hour) => hour == 9 || hour == 20 || hour == 21
    case OnWeekday(_, dow) => 0 <= dow <= 6
    case _ => true
  }

  function ToCron(p: Phrase): Schedule {
    match p
    case Hourly => Schedule(Exactly(0), STAR, STAR, STAR, STAR)
    case Daily(hour) => Schedule(Exactly(0), Exactly(hour), STAR, STAR, STAR)
    case OnWeekday(t, dow) =>
      var (h, m) := ParseTime(t, 9, 0);
      Schedule(Exactly(m), Exactly(h), STAR, STAR, Exactly(dow))
    case Weekdays(t) =>
      var (h, m) := ParseTime(t, 9, 0);
      Schedule(Exactly(m), Exactly(h), STAR, STAR, [Part(Between(1, 5), Some(1))])
    case DailyAt(t) =>
      var (h, m) := ParseTime(t, 9, 0);
      Schedule(Exactly(m), Exactly(h), STAR, STAR, STAR)
  }

  /** Every schedule a phrase compiles to runs within seven days, whatever was captured and whenever it is asked. */
  lemma PhrasesRunWithinAWeek(p: Phrase, now: Stamp)
    requires Sensible(p) && Valid(now)
    ensures exists s :: FirstVerdict(ToCron(p), now, s, Yes) && Minutes(s) <= Minutes(now) + 7 * 1440
  {
    hide FirstVerdict, Minutes;
    var c := ToCron(p);
    StarMatches(1, 0, 6);
    StarMatches(0, 0, 23);
    assert GoodSchedule(c);
    match p
    case Hourly => WeeklyFoundInAWeek(c, now, 0, 0, 1);
    case Daily(hour) => WeeklyFoundInAWeek(c, now, 0, hour, 1);
    case OnWeekday(t, dow) => WeeklyFoundInAWeek(c, now, ParseTime(t, 9, 0).1, ParseTime(t, 9, 0).0, dow);
    case Weekdays(t) => WeeklyFoundInAWeek(c, now, ParseTime(t, 9, 0).1, ParseTime(t, 9, 0).0, 1);
    case DailyAt(t) => WeeklyFoundInAWeek(c, now, ParseTime(t, 9, 0).1, ParseTime(t, 9, 0).0, 1);
  }

  /** A captured time of day is read off a twelve-hour or a twenty-four-hour clock; nothing captured is nine o'clock. */
  lemma ClockTimes(h: nat, m: Option<nat>, pm: Option<bool>)
    ensures ParseTime(Nothing, 9, 0) == (9, 0)
    ensures pm == Some(false) && 1 <= h <= 12 ==> ParseTime(Time(h, m, pm), 9, 0).0 == h % 12
    ensures pm == Some(true) && 1 <= h <= 12 ==> ParseTime(Time(h, m, pm), 9, 0).0 == h % 12 + 12
    ensures pm.None? && h < 24 ==> ParseTime(Time(h, m, pm), 9, 0).0 == h
    ensures m.None? ==> ParseTime(Time(h, m, pm), 9, 0).1 == 0
    ensures m.Some? && m.value < 60 ==> ParseTime(Time(h, m, pm), 9, 0).1 == m.value
  {
  }

  predicate AtTime(s: Stamp, t: Captured) { (s.hour, s.minute) == ParseTime(t, 9, 0) }

  /** When a phrase runs: at its time, every hour, every day, on its weekday, or from Monday to Friday. */
  lemma PhraseRunsExactly(p: Phrase, s: Stamp, weekday: int)
    requires Sensible(p) && Valid(s) && OnWeekday(s, weekday) && 0 <= weekday < 7
    ensures Matches(ToCron(p), s) == Yes <==>
              match p
              case Hourly => s.minute == 0
              case Daily(hour) => s.hour == hour && s.minute == 0
              case OnWeekday(t, dow) => AtTime(s, t) && weekday == dow
              case Weekdays(t) => AtTime(s, t) && 1 <= weekday <= 5
              case DailyAt(t) => AtTime(s, t)
  {
    hide FieldMatches, Walk, Weekday, Minutes;
    CountedDow(s, weekday);
    StarMatches(s.minute, 0, 59);
    StarMatches(s.hour, 0, 23);
    StarMatches(s.day, 1, 31);
    StarMatches(s.month, 1, 12);
    StarMatches(weekday, 0, 6);
    forall n, v, lo, hi ensures FieldMatches(Exactly(n), v, lo, hi) == if v == n then Yes else No {
      OnlyItself(n, v, lo, hi);
    }
    WorkDays(weekday, 0, 6);
    WorkDays(if weekday == 0 then 7 else weekday, 0, 7);
  }

  lemma WorkDays(v: int, lo: int, hi: int)
    ensures FieldMatches([Part(Between(1, 5), Some(1))], v, lo, hi) == if 1 <= v <= 5 then Yes else No
  {
  }
}
