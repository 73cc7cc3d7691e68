// Week dates of moment.js: which week a date is in and which date a week starts on,
// for any first day of the week and any rule for the first week of the year.
module WeekDates {
  // `dow` is the first day of the week, Sunday 0; day 7 + dow - doy of January is
  // always in the first week (4 for ISO 8601:2004, section 4.1.4).
  predicate Locale(dow: int, doy: int) {
    0 <= dow < 7 && 1 <= 7 + dow - doy <= 31
  }

  predicate IsLeapYear(year: int) {
    (year % 4 == 0 && year % 100 != 0) || year % 400 == 0
  }

  function DaysInYear(year: int): int {
    if IsLeapYear(year) then 366 else 365
  }

  // Days from 31 December of the year 0 to a date, by the Gregorian calendar; it
  // stands in for the native Date.
  function DaysBefore(year: int): int {
    365 * (year - 1) + (year - 1) / 4 - (year - 1) / 100 + (year - 1) / 400
  }

  function DayNumber(year: int, dayOfYear: int): int {
    DaysBefore(year) + dayOfYear
  }

  // getUTCDay: Sunday is 0.
  function Weekday(n: int): int { n % 7 }

  // Multiples of d up to n, one more than up to n - 1 if n is one.
  lemma Quotient(n: int, d: int)
    requires d > 1
    ensures n / d == (n - 1) / d + if n % d == 0 then 1 else 0
  {
    var q, r := (n - 1) / d, (n - 1) % d;
    assert n == d * q + (r + 1);
    if r + 1 == d {
      assert n == d * (q + 1);
      Divides(n, d, q + 1, 0);
    } else {
      Divides(n, d, q, r + 1);
    }
  }

  lemma Divides(n: int, d: int, q: int, r: int)
    requires d > 0 && n == d * q + r && 0 <= r < d
    ensures n / d == q && n % d == r
  {
    var e := n / d - q;
    assert d * e == r - n % d;
    assert -d < d * e < d;
    assert e == 0;
  }

  // Every 400th year is a 100th, and every 100th a 4th.
  lemma Centuries(year: int)
    ensures year % 100 == 0 ==> year % 4 == 0
    ensures year % 400 == 0 ==> year % 100 == 0
  {
    if year % 100 == 0 { Divides(year, 4, 25 * (year / 100), 0); }
    if year % 400 == 0 { Divides(year, 100, 4 * (year / 400), 0); }
  }

  lemma DaysBeforeNext(year: int)
    ensures DaysBefore(year + 1) == DaysBefore(year) + DaysInYear(year)
  {
    Centuries(year);
    Quotient(year, 4);
    Quotient(year, 100);
    Quotient(year, 400);
  }

  lemma DaysBefore400(year: int)
    ensures DaysBefore(year + 400) == DaysBefore(year) + 146097
  {
    var y := year - 1;
    Divides(y + 400, 4, y / 4 + 100, y % 4);
    Divides(y + 400, 100, y / 100 + 4, y % 100);
    Divides(y + 400, 400, y / 400 + 1, y % 400);
  }

  datatype Date = Date(year: int, dayOfYear: int)
  datatype WeekDate = WeekDate(year: int, week: int)

  predicate ValidDate(d: Date) {
    1 <= d.dayOfYear <= DaysInYear(d.year)
  }

  function Number(d: Date): int { DayNumber(d.year, d.dayOfYear) }

  // ---------- the calendar ----------

  function Tomorrow(d: Date): Date {
    if d.dayOfYear < DaysInYear(d.year) then Date(d.year, d.dayOfYear + 1) else Date(d.year + 1, 1)
  }

  // A way of naming weekdays that goes on by one from day to day, and has a Thursday on
  // the first day of 1970.
  ghost predicate Counts(w: Date -> int) {
    && w(Date(1970, 1)) == 4
    && (forall d :: ValidDate(d) ==> 0 <= w(d) < 7 && w(Tomorrow(d)) == (w(d) + 1) % 7)
  }

  lemma NextWeekday(d: Date)
    requires ValidDate(d)
    ensures Number(Tomorrow(d)) == Number(d) + 1 && ValidDate(Tomorrow(d))
    ensures Weekday(Number(d) + 1) == (Weekday(Number(d)) + 1) % 7
  {
    DaysBeforeNext(d.year);
    hide DaysBefore;
  }

  // The weekday used here is such a way ...
  lemma WeekdayCounts()
    ensures Counts(d => Weekday(Number(d)))
  {
    assert DayNumber(1970, 1) == 719163;
    forall d | ValidDate(d) ensures Weekday(Number(Tomorrow(d))) == (Weekday(Number(d)) + 1) % 7 { NextWeekday(d); }
    hide DaysBefore;
  }

  // How far another way is ahead of it stays the same from day to day,
  function Ahead(w: Date -> int, d: Date): int { (w(d) - Weekday(Number(d))) % 7 }

  lemma AheadTomorrow(w: Date -> int, d: Date)
    requires Counts(w) && ValidDate(d)
    ensures ValidDate(Tomorrow(d)) && Ahead(w, Tomorrow(d)) == Ahead(w, d)
  {
    NextWeekday(d);
    hide Number, Tomorrow;
  }

  // so within a year, up to the first day of the next,
  lemma {:induction false} AheadInYear(w: Date -> int, d: Date)
    requires Counts(w) && ValidDate(d)
    ensures Ahead(w, d) == Ahead(w, Date(d.year, 1))
    decreases d.dayOfYear
  {
    hide Ahead;
    if 1 < d.dayOfYear {
      var before := Date(d.year, d.dayOfYear - 1);
      AheadInYear(w, before);
      AheadTomorrow(w, before);
    }
  }

  lemma AheadNextYear(w: Date -> int, year: int)
    requires Counts(w)
    ensures Ahead(w, Date(year + 1, 1)) == Ahead(w, Date(year, 1))
  {
    hide Ahead;
    var last := Date(year, DaysInYear(year));
    AheadInYear(w, last);
    AheadTomorrow(w, last);
  }

  // and from 1970 forwards and backwards.
  lemma {:induction false} NeverAhead(w: Date -> int, year: int)
    requires Counts(w)
    ensures Ahead(w, Date(year, 1)) == 0
    decreases if year < 1970 then 1970 - year else year - 1970
  {
    if year == 1970 {
      WeekdayCounts();
    } else {
      hide Ahead, Counts;
      NeverAhead(w, if 1970 < year then year - 1 else year + 1);
      AheadNextYear(w, if 1970 < year then year - 1 else year);
    }
  }

  // So there is no other one: the weekday of every date is determined.
  lemma WeekdayIsDetermined(w: Date -> int, d: Date)
    requires Counts(w) && ValidDate(d)
    ensures w(d) == Weekday(Number(d))
  {
    NeverAhead(w, d.year);
    AheadInYear(w, d);
    hide Number;
  }

  // ---------- the functions of the source ----------

  function FirstWeekOffset(year: int, dow: int, doy: int): int
    requires Locale(dow, doy)
  {
    var fwd := 7 + dow - doy;
    var fwdlw := (7 + Weekday(DayNumber(year, fwd)) - dow) % 7;
    -fwdlw + fwd - 1
  }

  // How many days after the first of its week a weekday comes.
  function LocalWeekday(weekday: int, dow: int): int { (7 + weekday - dow) % 7 }

  function DayOfYearFromWeeks(year: int, week: int, weekday: int, dow: int, doy: int): Date
    requires Locale(dow, doy)
  {
    var dayOfYear := 1 + 7 * (week - 1) + LocalWeekday(weekday, dow) + FirstWeekOffset(year, dow, doy);
    if dayOfYear <= 0 then Date(year - 1, DaysInYear(year - 1) + dayOfYear)
    else if dayOfYear > DaysInYear(year) then Date(year + 1, dayOfYear - DaysInYear(year))
    else Date(year, dayOfYear)
  }

  // From the start of a year's weeks to that of the next year's it is whole weeks.
  lemma ExactWeeks(year: int, dow: int, doy: int)
    requires Locale(dow, doy)
    ensures var days := DaysInYear(year) - FirstWeekOffset(year, dow, doy) + FirstWeekOffset(year + 1, dow, doy);
      (days == 7 * 52 && days / 7 == 52) || (days == 7 * 53 && days / 7 == 53)
  {
    StartOfWeekYear(year, dow, doy);
    StartOfWeekYear(year + 1, dow, doy);
    DaysBeforeNext(year);
    var a, b := WeekStart(year, dow, doy), WeekStart(year + 1, dow, doy);
    assert b - a == DaysInYear(year) - FirstWeekOffset(year, dow, doy) + FirstWeekOffset(year + 1, dow, doy);
    hide WeekStart, FirstWeekOffset, DaysBefore, IsLeapYear, Weekday;
    WholeWeeks(a, b);
  }

  // The source divides by seven; the division leaves no remainder.
  function WeeksInYear(year: int, dow: int, doy: int): (weeks: int)
    requires Locale(dow, doy)
    ensures 7 * weeks == DaysInYear(year) - FirstWeekOffset(year, dow, doy) + FirstWeekOffset(year + 1, dow, doy)
    ensures weeks == 52 || weeks == 53
  {
    ExactWeeks(year, dow, doy);
    (DaysInYear(year) - FirstWeekOffset(year, dow, doy) + FirstWeekOffset(year + 1, dow, doy)) / 7
  }

  function WeekOfYear(d: Date, dow: int, doy: int): WeekDate
    requires Locale(dow, doy)
  {
    var week := (d.dayOfYear - FirstWeekOffset(d.year, dow, doy) - 1) / 7 + 1;
    if week < 1 then WeekDate(d.year - 1, week + WeeksInYear(d.year - 1, dow, doy))
    else if week > WeeksInYear(d.year, dow, doy) then WeekDate(d.year + 1, week - WeeksInYear(d.year, dow, doy))
    else WeekDate(d.year, week)
  }

  // ---------- what they mean ----------

  // The first day of the first week.
  function WeekStart(year: int, dow: int, doy: int): int
    requires Locale(dow, doy)
  {
    DayNumber(year, 1 + FirstWeekOffset(year, dow, doy))
  }

  // The weeks of a year begin on the only day `dow` whose week holds the January day
  // of the rule.
  lemma StartOfWeekYear(year: int, dow: int, doy: int)
    requires Locale(dow, doy)
    ensures Weekday(WeekStart(year, dow, doy)) == dow
    ensures WeekStart(year, dow, doy) <= DayNumber(year, 7 + dow - doy) < WeekStart(year, dow, doy) + 7
    ensures forall n: int :: Weekday(n) == dow && n <= DayNumber(year, 7 + dow - doy) < n + 7 ==> n == WeekStart(year, dow, doy)
  {
    hide DaysBefore;
    var day := DayNumber(year, 7 + dow - doy);
    BackToWeekday(day, dow);
    forall n: int | Weekday(n) == dow && n <= day < n + 7 ensures n == WeekStart(year, dow, doy) {
      SameWeekday(n, day, dow);
    }
  }

  // The last `dow` up to day n.
  lemma BackToWeekday(n: int, dow: int)
    requires 0 <= dow < 7
    ensures Weekday(n - (7 + Weekday(n) - dow) % 7) == dow
  {
    var q, r := n / 7, n % 7;
    if r >= dow {
      Divides(7 + r - dow, 7, 1, r - dow);
      Divides(n - (r - dow), 7, q, dow);
    } else {
      Divides(7 + r - dow, 7, 0, 7 + r - dow);
      Divides(n - (7 + r - dow), 7, q - 1, dow);
    }
  }

  // A day in the week that starts on `start` is as far into it as its weekday says.
  lemma SameWeekday(start: int, n: int, dow: int)
    requires 0 <= dow < 7 && Weekday(start) == dow && start <= n < start + 7
    ensures n == start + LocalWeekday(Weekday(n), dow)
  {
    var q, k := start / 7, n - start;
    if dow + k < 7 {
      Divides(n, 7, q, dow + k);
      Divides(7 + Weekday(n) - dow, 7, 1, k);
    } else {
      Divides(n, 7, q + 1, dow + k - 7);
      Divides(7 + Weekday(n) - dow, 7, 0, k);
    }
  }

  // And the other way about.
  lemma WeekdayAt(start: int, weekday: int, dow: int)
    requires 0 <= dow < 7 && 0 <= weekday < 7 && Weekday(start) == dow
    ensures Weekday(start + LocalWeekday(weekday, dow)) == weekday
  {
    var q := start / 7;
    if weekday >= dow {
      Divides(7 + weekday - dow, 7, 1, weekday - dow);
      Divides(start + (weekday - dow), 7, q, weekday);
    } else {
      Divides(7 + weekday - dow, 7, 0, 7 + weekday - dow);
      Divides(start + (7 + weekday - dow), 7, q + 1, weekday);
    }
  }

  lemma WholeWeeks(a: int, b: int)
    requires Weekday(a) == Weekday(b) && 358 < b - a < 373
    ensures b - a == 7 * 52 || b - a == 7 * 53
  {
    var q := b / 7 - a / 7;
    assert b - a == 7 * q;
  }

  lemma NextStart(year: int, dow: int, doy: int)
    requires Locale(dow, doy)
    ensures WeekStart(year + 1, dow, doy) == WeekStart(year, dow, doy) + 7 * WeeksInYear(year, dow, doy)
  {
    DaysBeforeNext(year);
  }

  // Day n is in week w of the weeks that begin on `start`.
  predicate Within(n: int, start: int, weeks: int, w: int) {
    1 <= w <= weeks && start + 7 * (w - 1) <= n < start + 7 * w
  }

  // Day n is in week w of year y.
  predicate InWeek(n: int, y: int, w: int, dow: int, doy: int)
    requires Locale(dow, doy)
  {
    Within(n, WeekStart(y, dow, doy), WeeksInYear(y, dow, doy), w)
  }

  lemma {:induction false} StartsIncrease(a: int, b: int, dow: int, doy: int)
    requires Locale(dow, doy) && a <= b
    ensures WeekStart(a, dow, doy) <= WeekStart(b, dow, doy)
    decreases b - a
  {
    hide WeekStart;
    if a < b {
      StartsIncrease(a, b - 1, dow, doy);
      NextStart(b - 1, dow, doy);
    }
  }

  // No day is in two weeks, of one year or of two.
  lemma WeekIsUnique(n: int, y: int, w: int, y': int, w': int, dow: int, doy: int)
    requires Locale(dow, doy)
    ensures InWeek(n, y, w, dow, doy) && InWeek(n, y', w', dow, doy) ==> y == y' && w == w'
  {
    hide WeekStart, WeeksInYear;
    NextStart(y, dow, doy);
    NextStart(y', dow, doy);
    if y < y' {
      StartsIncrease(y + 1, y', dow, doy);
    } else if y' < y {
      StartsIncrease(y' + 1, y, dow, doy);
    }
  }

  lemma {:induction false} DaysIncrease(a: int, b: int)
    requires a <= b
    ensures DaysBefore(a) <= DaysBefore(b)
    decreases b - a
  {
    if a < b {
      DaysIncrease(a, b - 1);
      DaysBeforeNext(b - 1);
    }
  }

  // A date is determined by its day number.
  lemma DateIsUnique(d: Date, e: Date)
    requires ValidDate(d) && ValidDate(e) && Number(d) == Number(e)
    ensures d == e
  {
    hide DaysBefore;
    DaysBeforeNext(d.year);
    DaysBeforeNext(e.year);
    if d.year < e.year {
      DaysIncrease(d.year + 1, e.year);
    } else if e.year < d.year {
      DaysIncrease(e.year + 1, d.year);
    }
  }

  // weekOfYear gives the one week that the date is in.
  lemma WeekHoldsDate(d: Date, dow: int, doy: int)
    requires Locale(dow, doy) && ValidDate(d)
    ensures var w := WeekOfYear(d, dow, doy); InWeek(Number(d), w.year, w.week, dow, doy)
  {
    hide *;
    var start, days := WeekStart(d.year, dow, doy), d.dayOfYear - FirstWeekOffset(d.year, dow, doy) - 1;
    NearStart(d, dow, doy);
    NextStart(d.year, dow, doy);
    NextStart(d.year - 1, dow, doy);
    WeekOfYearIs(d, dow, doy, days / 7 + 1);
    FindWeek(start, days, WeeksInYear(d.year - 1, dow, doy), WeeksInYear(d.year, dow, doy), WeeksInYear(d.year + 1, dow, doy));
    var w := WeekOfYear(d, dow, doy);
    InWeekIs(Number(d), w, dow, doy);
  }

  lemma WeekOfYearIs(d: Date, dow: int, doy: int, week: int)
    requires Locale(dow, doy) && week == (d.dayOfYear - FirstWeekOffset(d.year, dow, doy) - 1) / 7 + 1
    ensures WeekOfYear(d, dow, doy) ==
      if week < 1 then WeekDate(d.year - 1, week + WeeksInYear(d.year - 1, dow, doy))
      else if week > WeeksInYear(d.year, dow, doy) then WeekDate(d.year + 1, week - WeeksInYear(d.year, dow, doy))
      else WeekDate(d.year, week)
  {
  }

  lemma InWeekIs(n: int, w: WeekDate, dow: int, doy: int)
    requires Locale(dow, doy)
    ensures InWeek(n, w.year, w.week, dow, doy) <==> Within(n, WeekStart(w.year, dow, doy), WeeksInYear(w.year, dow, doy), w.week)
  {
  }

  // The weeks of a year and of its neighbours cover it.
  lemma NearStart(d: Date, dow: int, doy: int)
    requires Locale(dow, doy) && ValidDate(d)
    ensures WeekStart(d.year - 1, dow, doy) <= Number(d) < WeekStart(d.year + 1, dow, doy) + 7 * 52
    ensures Number(d) == WeekStart(d.year, dow, doy) + (d.dayOfYear - FirstWeekOffset(d.year, dow, doy) - 1)
  {
    OffsetRange(d.year - 1, dow, doy);
    OffsetRange(d.year + 1, dow, doy);
    DaysBeforeNext(d.year);
    DaysBeforeNext(d.year - 1);
    hide DaysBefore, FirstWeekOffset, IsLeapYear;
  }

  // Where the week number of the source falls, counted back into the year before or
  // on into the year after.
  lemma FindWeek(start: int, days: int, weeksBefore: int, weeks: int, weeksAfter: int)
    requires -7 * weeksBefore <= days < 7 * (weeks + 52) && weeksAfter >= 52
    ensures var week := days / 7 + 1;
      && (week < 1 ==> Within(start + days, start - 7 * weeksBefore, weeksBefore, week + weeksBefore))
      && (1 <= week <= weeks ==> Within(start + days, start, weeks, week))
      && (week > weeks ==> Within(start + days, start + 7 * weeks, weeksAfter, week - weeks))
  {
  }

  lemma OffsetRange(year: int, dow: int, doy: int)
    requires Locale(dow, doy)
    ensures -6 <= FirstWeekOffset(year, dow, doy) <= 30
  {
  }

  // dayOfYearFromWeeks gives the date that is `week` weeks into the year, on the day
  // asked for.
  lemma DateInWeek(year: int, week: int, weekday: int, dow: int, doy: int)
    requires Locale(dow, doy) && 0 <= weekday < 7
    ensures var d := DayOfYearFromWeeks(year, week, weekday, dow, doy);
      && Number(d) == WeekStart(year, dow, doy) + 7 * (week - 1) + LocalWeekday(weekday, dow)
      && Weekday(Number(d)) == weekday
      && (1 <= week <= WeeksInYear(year, dow, doy) ==> ValidDate(d))
  {
    var start := WeekStart(year, dow, doy);
    NumberInWeek(year, week, weekday, dow, doy);
    StartOfWeekYear(year, dow, doy);
    Divides(start + 7 * (week - 1), 7, start / 7 + week - 1, dow);
    WeekdayAt(start + 7 * (week - 1), weekday, dow);
    if 1 <= week <= WeeksInYear(year, dow, doy) { ValidInWeek(year, week, weekday, dow, doy); }
    hide WeekStart, DayOfYearFromWeeks, Number, LocalWeekday, Weekday, WeeksInYear, ValidDate;
  }

  lemma NumberInWeek(year: int, week: int, weekday: int, dow: int, doy: int)
    requires Locale(dow, doy) && 0 <= weekday < 7
    ensures Number(DayOfYearFromWeeks(year, week, weekday, dow, doy)) ==
      WeekStart(year, dow, doy) + 7 * (week - 1) + LocalWeekday(weekday, dow)
  {
    DaysBeforeNext(year);
    DaysBeforeNext(year - 1);
    hide DaysBefore, FirstWeekOffset, IsLeapYear, LocalWeekday;
  }

  lemma ValidInWeek(year: int, week: int, weekday: int, dow: int, doy: int)
    requires Locale(dow, doy) && 0 <= weekday < 7 && 1 <= week <= WeeksInYear(year, dow, doy)
    ensures ValidDate(DayOfYearFromWeeks(year, week, weekday, dow, doy))
  {
    OffsetRange(year, dow, doy);
    OffsetRange(year + 1, dow, doy);
    hide FirstWeekOffset, IsLeapYear;
  }

  // Week to date and back: the same week, exactly for the weeks the year has.
  lemma WeekRoundTrip(year: int, week: int, weekday: int, dow: int, doy: int)
    requires Locale(dow, doy) && 0 <= weekday < 7
    requires ValidDate(DayOfYearFromWeeks(year, week, weekday, dow, doy))
    ensures WeekOfYear(DayOfYearFromWeeks(year, week, weekday, dow, doy), dow, doy) == WeekDate(year, week)
      <==> 1 <= week <= WeeksInYear(year, dow, doy)
  {
    var d := DayOfYearFromWeeks(year, week, weekday, dow, doy);
    var w := WeekOfYear(d, dow, doy);
    DateInWeek(year, week, weekday, dow, doy);
    WeekHoldsDate(d, dow, doy);
    hide DayOfYearFromWeeks, WeekOfYear, WeekStart, WeeksInYear, ValidDate, Number;
    if 1 <= week <= WeeksInYear(year, dow, doy) {
      WeekIsUnique(Number(d), year, week, w.year, w.week, dow, doy);
    }
  }

  // Date to week and back: the same date, for every date.
  lemma DateRoundTrip(d: Date, dow: int, doy: int)
    requires Locale(dow, doy) && ValidDate(d)
    ensures var w := WeekOfYear(d, dow, doy);
      DayOfYearFromWeeks(w.year, w.week, Weekday(Number(d)), dow, doy) == d
  {
    var w := WeekOfYear(d, dow, doy);
    WeekHoldsDate(d, dow, doy);
    DateInWeek(w.year, w.week, Weekday(Number(d)), dow, doy);
    StartOfWeekYear(w.year, dow, doy);
    var start := WeekStart(w.year, dow, doy);
    var first := start + 7 * (w.week - 1);
    Divides(first, 7, start / 7 + w.week - 1, dow);
    SameWeekday(first, Number(d), dow);
    hide DayOfYearFromWeeks, WeekOfYear, WeekStart, WeeksInYear, ValidDate, Number, LocalWeekday, Weekday;
    DateIsUnique(d, DayOfYearFromWeeks(w.year, w.week, Weekday(Number(d)), dow, doy));
  }

  // Under ISO rules 7 January 2024, a Sunday, ends week 1 of 2024, which began with the
  // year, and 31 December 2024 is in week 1 of 2025.
  lemma KnownWeeks()
    ensures WeekOfYear(Date(2024, 7), 1, 4) == WeekDate(2024, 1) && DayOfYearFromWeeks(2024, 1, 1, 1, 4) == Date(2024, 1)
    ensures WeekOfYear(Date(2024, 366), 1, 4) == WeekDate(2025, 1)
  {
    assert FirstWeekOffset(2024, 1, 4) == 0 by { assert DaysBefore(2024) == 738885; hide DaysBefore; }
    assert FirstWeekOffset(2025, 1, 4) == -2 by { assert DaysBefore(2025) == 739251; hide DaysBefore; }
    assert FirstWeekOffset(2026, 1, 4) == -3 by { assert DaysBefore(2026) == 739616; hide DaysBefore; }
    hide FirstWeekOffset, DaysBefore;
  }

  // ---------- long years ----------

  // ISO 8601:2004, section 4.1.4: a year has 53 weeks exactly when it begins on a
  // Thursday, or on a Wednesday and is a leap year.
  lemma IsoLongYear(year: int)
    ensures WeeksInYear(year, 1, 4) == 53
      <==> Weekday(DayNumber(year, 1)) == 4 || (IsLeapYear(year) && Weekday(DayNumber(year, 1)) == 3)
  {
    StartOfWeekYear(year, 1, 4);
    StartOfWeekYear(year + 1, 1, 4);
    NextStart(year, 1, 4);
    DaysBeforeNext(year);
    var start := WeekStart(year, 1, 4);
    DaysIntoWeek(start, DayNumber(year, 4) - start);
    hide DaysBefore, FirstWeekOffset, WeeksInYear, IsLeapYear, Weekday;
  }

  lemma DaysIntoWeek(monday: int, k: int)
    requires Weekday(monday) == 1 && 0 <= k < 7
    ensures Weekday(monday + k - 3) == 4 <==> k == 6
    ensures Weekday(monday + k - 3) == 3 <==> k == 5
  {
    var q := monday / 7;
    if k < 2 { Divides(monday + k - 3, 7, q - 1, k + 5); } else { Divides(monday + k - 3, 7, q, k - 2); }
  }

  function LongYears(from: int, years: nat, dow: int, doy: int): nat
    requires Locale(dow, doy)
  {
    if years == 0 then 0
    else LongYears(from, years - 1, dow, doy) + if WeeksInYear(from + years - 1, dow, doy) == 53 then 1 else 0
  }

  lemma {:induction false} WeeksAddUp(from: int, years: nat, dow: int, doy: int)
    requires Locale(dow, doy)
    ensures WeekStart(from + years, dow, doy) == WeekStart(from, dow, doy) + 7 * (52 * years + LongYears(from, years, dow, doy))
  {
    hide WeekStart, WeeksInYear;
    if years > 0 {
      WeeksAddUp(from, years - 1, dow, doy);
      NextStart(from + years - 1, dow, doy);
    }
  }

  // Whatever the rule, any 400 years in a row have 71 long ones.
  lemma LongYearsIn400(from: int, dow: int, doy: int)
    requires Locale(dow, doy)
    ensures LongYears(from, 400, dow, doy) == 71
  {
    WeeksAddUp(from, 400, dow, doy);
    DaysBefore400(from);
    StartOfWeekYear(from, dow, doy);
    StartOfWeekYear(from + 400, dow, doy);
    hide DaysBefore, FirstWeekOffset, LongYears;
  }
}
