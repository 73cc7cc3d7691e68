// Durations of moment.js on whole milliseconds, days and months, in exact arithmetic:
// `bubble` spreads them over fields of a readable size.
module Durations {
  import WeekDates

  // absFloor(n / d): division cut off towards zero.
  function Quot(n: int, d: int): (q: int)
    requires d > 0
  {
    if n >= 0 then n / d else -(-n / d)
  }

  // JavaScript's n % d, with the sign of n.
  function Rem(n: int, d: int): int
    requires d > 0
  {
    n - d * Quot(n, d)
  }

  // absCeil(n / d): away from zero.
  function QuotUp(n: int, d: int): int
    requires d > 0
  {
    Quot(n, d) + if Rem(n, d) > 0 then 1 else if Rem(n, d) < 0 then -1 else 0
  }

  lemma QuotRem(n: int, d: int)
    requires d > 0
    ensures -d < Rem(n, d) < d
    ensures n >= 0 ==> Rem(n, d) >= 0 && 0 <= Quot(n, d)
    ensures n <= 0 ==> Rem(n, d) <= 0 && Quot(n, d) <= 0
  {
    if n >= 0 {
      DivMod(n, d);
    } else {
      DivMod(-n, d);
      Minus(d, -n / d);
    }
  }

  lemma DivMod(m: int, d: int)
    requires m >= 0 && d > 0
    ensures m == d * (m / d) + m % d && 0 <= m % d < d && 0 <= m / d
  {
  }

  lemma Minus(d: int, q: int)
    ensures d * -q == -(d * q)
  {
  }

  // The only number of whole d's in n.
  lemma QuotIs(n: int, d: int, q: int)
    requires d > 0 && n >= 0 && d * q <= n < d * q + d
    ensures Quot(n, d) == q
  {
    var e := n / d - q;
    assert n == d * (n / d) + n % d;
    assert d * e == d * (n / d) - d * q;
    assert -d < d * e < d;
    assert e == 0;
  }

  lemma Opposite(n: int, d: int)
    requires d > 0
    ensures Quot(-n, d) == -Quot(n, d) && Rem(-n, d) == -Rem(n, d) && QuotUp(-n, d) == -QuotUp(n, d)
  {
    assert d * -Quot(n, d) == -(d * Quot(n, d));
  }

  // Dividing in two steps is dividing once.
  lemma TwoSteps(n: int, a: int, b: int)
    requires a > 0 && b > 0 && a * b > 0
    ensures Quot(Quot(n, a), b) == Quot(n, a * b)
  {
    if n >= 0 {
      TwoStepsUp(n, a, b);
    } else {
      TwoStepsUp(-n, a, b);
      Opposite(n, a);
      Opposite(Quot(n, a), b);
      Opposite(n, a * b);
    }
  }

  lemma TwoStepsUp(n: int, a: int, b: int)
    requires a > 0 && b > 0 && a * b > 0 && n >= 0
    ensures Quot(Quot(n, a), b) == Quot(n, a * b)
  {
    hide Quot;
    var q := Quot(n, a);
    QuotRem(n, a);
    QuotRem(q, b);
    Spread(a, b, Quot(q, b), Rem(q, b));
    QuotIs(n, a * b, Quot(q, b));
  }

  lemma Spread(a: int, b: int, p: int, s: int)
    requires a > 0 && 0 <= s < b
    ensures a * (b * p + s) == a * b * p + a * s && 0 <= a * s <= a * b - a
  {
    assert a * s <= a * (b - 1);
  }

  const DAYS := 146097    // in 400 years
  const MONTHS := 4800    // in 400 years
  const DAY := 86_400_000 // milliseconds

  // absFloor(daysToMonths(days)) and absCeil(monthsToDays(months))
  function DaysToMonths(days: int): int { Quot(days * MONTHS, DAYS) }
  function MonthsToDays(months: int): int { QuotUp(months * DAYS, MONTHS) }

  // The two constants are those of the calendar: any 400 years in a row have as many
  // days, and as many months, and are turned into each other without rest.
  lemma FourCenturies(year: int)
    ensures WeekDates.DaysBefore(year + 400) - WeekDates.DaysBefore(year) == DAYS && MONTHS == 400 * 12
    ensures MonthsToDays(MONTHS) == DAYS && DaysToMonths(DAYS) == MONTHS
  {
    WeekDates.DaysBefore400(year);
    hide WeekDates.DaysBefore;
  }

  // The days of any number of months make that many months again.
  lemma MonthsRoundTrip(months: int)
    ensures DaysToMonths(MonthsToDays(months)) == months
  {
    hide Quot, Rem, QuotUp;
    if months < 0 {
      MonthsUp(-months);
      Opposite(months * DAYS, MONTHS);
      Opposite(MonthsToDays(months) * MONTHS, DAYS);
    } else {
      MonthsUp(months);
    }
  }

  lemma MonthsUp(months: int)
    requires months >= 0
    ensures DaysToMonths(MonthsToDays(months)) == months
  {
    hide Quot;
    QuotRem(months * DAYS, MONTHS);
    QuotIs(MonthsToDays(months) * MONTHS, DAYS, months);
  }

  // Whole months leave at most 30 days, with the sign of the days.
  lemma DaysLeft(days: int)
    ensures var left := days - MonthsToDays(DaysToMonths(days));
      && (days >= 0 ==> 0 <= left <= 30 && DaysToMonths(days) >= 0)
      && (days <= 0 ==> -30 <= left <= 0 && DaysToMonths(days) <= 0)
  {
    hide Quot, Rem, QuotUp;
    if days < 0 {
      DaysLeftUp(-days);
      Opposite(days * MONTHS, DAYS);
      Opposite(DaysToMonths(days) * DAYS, MONTHS);
    } else {
      DaysLeftUp(days);
    }
  }

  lemma DaysLeftUp(days: int)
    requires days >= 0
    ensures 0 <= days - MonthsToDays(DaysToMonths(days)) <= 30 && DaysToMonths(days) >= 0
    ensures days == 0 ==> DaysToMonths(days) == MonthsToDays(DaysToMonths(days)) == 0
  {
    hide Quot;
    QuotIs(0, MONTHS, 0);
    QuotRem(days * MONTHS, DAYS);
    QuotRem(DaysToMonths(days) * DAYS, MONTHS);
  }

  // The fields of `_data`.
  datatype Fields = Fields(milliseconds: int, seconds: int, minutes: int, hours: int, days: int, months: int, years: int)

  predicate Upward(f: Fields) {
    f.milliseconds >= 0 && f.seconds >= 0 && f.minutes >= 0 && f.hours >= 0 && f.days >= 0 && f.months >= 0 && f.years >= 0
  }

  function Negated(f: Fields): Fields {
    Fields(-f.milliseconds, -f.seconds, -f.minutes, -f.hours, -f.days, -f.months, -f.years)
  }

  // All of one sign, and each below the next unit.
  predicate Normal(f: Fields) {
    && (Upward(f) || Upward(Negated(f)))
    && -1000 < f.milliseconds < 1000 && -60 < f.seconds < 60 && -60 < f.minutes < 60 && -24 < f.hours < 24
    && -30 <= f.days <= 30 && -12 < f.months < 12
  }

  // The fields below a day in milliseconds, and those above in months.
  function Clock(f: Fields): int {
    f.milliseconds + 1000 * f.seconds + 60_000 * f.minutes + 3_600_000 * f.hours
  }

  function Calendar(f: Fields): int { f.months + 12 * f.years }

  predicate OneSign(a: int, b: int, c: int) {
    (a >= 0 && b >= 0 && c >= 0) || (a <= 0 && b <= 0 && c <= 0)
  }

  // With mixed signs, days and months first go into the milliseconds, rounded away
  // from zero to whole days.
  function Levelled(milliseconds: int, days: int, months: int): (int, int, int) {
    if OneSign(milliseconds, days, months) then (milliseconds, days, months)
    else (milliseconds + QuotUp(months * DAYS + days * MONTHS, MONTHS) * DAY, 0, 0)
  }

  // What a duration shows: each field is what is left of its unit after the next.
  function Shown(milliseconds: int, days: int, months: int): Fields {
    var (ms, d, m) := Levelled(milliseconds, days, months);
    var allDays := d + Quot(ms, DAY);
    var allMonths := m + DaysToMonths(allDays);
    Fields(Rem(ms, 1000), Rem(Quot(ms, 1000), 60), Rem(Quot(ms, 60_000), 60), Rem(Quot(ms, 3_600_000), 24),
           allDays - MonthsToDays(DaysToMonths(allDays)), Rem(allMonths, 12), Quot(allMonths, 12))
  }

  // The units one by one, as `bubble` divides, or at once.
  lemma Units(milliseconds: int)
    ensures Quot(Quot(milliseconds, 1000), 60) == Quot(milliseconds, 60_000)
    ensures Quot(Quot(milliseconds, 60_000), 60) == Quot(milliseconds, 3_600_000)
    ensures Quot(Quot(milliseconds, 3_600_000), 24) == Quot(milliseconds, DAY)
  {
    hide Quot;
    TwoSteps(milliseconds, 1000, 60);
    TwoSteps(milliseconds, 60_000, 60);
    TwoSteps(milliseconds, 3_600_000, 24);
  }

  // Levelling gives one sign.
  lemma LevelledSign(milliseconds: int, days: int, months: int)
    ensures var l := Levelled(milliseconds, days, months); OneSign(l.0, l.1, l.2)
  {
  }

  // Whatever the amounts, the fields are of one sign and in range.
  lemma ShownIsNormal(milliseconds: int, days: int, months: int)
    ensures Normal(Shown(milliseconds, days, months))
  {
    hide Quot, Rem, DaysToMonths, MonthsToDays, Levelled;
    LevelledSign(milliseconds, days, months);
    var (ms, d, m) := Levelled(milliseconds, days, months);
    QuotRem(ms, 1000);
    QuotRem(Quot(ms, 1000), 60);
    QuotRem(ms, 60_000);
    QuotRem(Quot(ms, 60_000), 60);
    QuotRem(ms, 3_600_000);
    QuotRem(Quot(ms, 3_600_000), 24);
    QuotRem(ms, DAY);
    var allDays := d + Quot(ms, DAY);
    DaysLeft(allDays);
    QuotRem(m + DaysToMonths(allDays), 12);
  }

  // Fields worth as much as amounts of one sign: the months that the fields have more
  // stand for as many days as they last, and whole months are not left as days.
  predicate Worth(f: Fields, milliseconds: int, days: int, months: int) {
    var moved := Calendar(f) - months;
    var allDays := f.days + MonthsToDays(moved);
    Clock(f) + DAY * allDays == milliseconds + DAY * days && moved == DaysToMonths(allDays)
  }

  // Nothing is lost on the way from the levelled amounts to the fields.
  lemma ShownConserves(milliseconds: int, days: int, months: int)
    ensures var l := Levelled(milliseconds, days, months); Worth(Shown(milliseconds, days, months), l.0, l.1, l.2)
  {
    hide Quot, QuotUp, DaysToMonths, MonthsToDays, Levelled;
    Units(Levelled(milliseconds, days, months).0);
  }

  // And they are the only fields in range that are worth as much.
  lemma OnlyShown(f: Fields, milliseconds: int, days: int, months: int)
    requires Normal(f) && OneSign(milliseconds, days, months)
    ensures Worth(f, milliseconds, days, months) <==> f == Shown(milliseconds, days, months)
  {
    hide Normal, Worth, Shown, Levelled;
    ShownIsNormal(milliseconds, days, months);
    ShownConserves(milliseconds, days, months);
    assert Levelled(milliseconds, days, months) == (milliseconds, days, months) by { LevelledOneSign(milliseconds, days, months); }
    var g := Shown(milliseconds, days, months);
    if milliseconds >= 0 && days >= 0 && months >= 0 {
      SameFields(f, g, milliseconds, days, months);
    } else if Worth(f, milliseconds, days, months) {
      WorthOpposite(f, milliseconds, days, months);
      WorthOpposite(g, milliseconds, days, months);
      SameFields(Negated(f), Negated(g), -milliseconds, -days, -months);
      assert Negated(Negated(f)) == f && Negated(Negated(g)) == g;
    }
  }

  lemma LevelledOneSign(milliseconds: int, days: int, months: int)
    requires OneSign(milliseconds, days, months)
    ensures Levelled(milliseconds, days, months) == (milliseconds, days, months)
  {
  }

  lemma WorthOpposite(f: Fields, milliseconds: int, days: int, months: int)
    requires Normal(f) && Worth(f, milliseconds, days, months)
    ensures Normal(Negated(f)) && Worth(Negated(f), -milliseconds, -days, -months)
  {
    hide Quot, Rem, QuotUp;
    assert Negated(Negated(f)) == f;
    var moved := Calendar(f) - months;
    Opposite(moved * DAYS, MONTHS);
    Opposite((f.days + MonthsToDays(moved)) * MONTHS, DAYS);
  }

  lemma SameFields(f: Fields, g: Fields, milliseconds: nat, days: nat, months: nat)
    requires Normal(f) && Normal(g)
    ensures Worth(f, milliseconds, days, months) && Worth(g, milliseconds, days, months) ==> f == g
  {
    if !(Worth(f, milliseconds, days, months) && Worth(g, milliseconds, days, months)) { return; }
    hide DaysToMonths, MonthsToDays;
    WorthUpward(f, milliseconds, days, months);
    WorthUpward(g, milliseconds, days, months);
    SameParts(Clock(f), f.days + MonthsToDays(Calendar(f) - months), Clock(g), g.days + MonthsToDays(Calendar(g) - months), DAY);
    SameParts(f.months, f.years, g.months, g.years, 12);
    var (fs, gs) := (f.seconds + 60 * (f.minutes + 60 * f.hours), g.seconds + 60 * (g.minutes + 60 * g.hours));
    SameParts(f.milliseconds, fs, g.milliseconds, gs, 1000);
    SameParts(f.seconds, f.minutes + 60 * f.hours, g.seconds, g.minutes + 60 * g.hours, 60);
    SameParts(f.minutes, f.hours, g.minutes, g.hours, 60);
    hide Worth, Normal;
  }

  lemma SameParts(r: nat, q: int, r': nat, q': int, d: int)
    requires r < d && r' < d && r + d * q == r' + d * q'
    ensures r == r' && q == q'
  {
    var e := q - q';
    assert d * e == d * q - d * q';
    assert -d < d * e < d;
    assert e == 0;
  }

  lemma WorthUpward(f: Fields, milliseconds: nat, days: nat, months: nat)
    requires Normal(f) && Worth(f, milliseconds, days, months)
    ensures Upward(f)
  {
    hide Quot, Rem, QuotUp, DaysToMonths, MonthsToDays;
    var moved := Calendar(f) - months;
    MonthsSign(moved);
    DaysLeft(0);
    MonthsSign(0);
  }

  lemma MonthsSign(months: int)
    ensures months <= 0 ==> MonthsToDays(months) <= 0
    ensures months == 0 ==> MonthsToDays(months) == 0
  {
    hide Quot;
    QuotRem(months * DAYS, MONTHS);
  }

  // Levelling is exact without months, and with them less than a day off, away from zero.
  lemma LevelledConserves(milliseconds: int, days: int, months: int)
    ensures var l := Levelled(milliseconds, days, months);
      var off := (l.0 - milliseconds + DAY * (l.1 - days)) * MONTHS + DAY * DAYS * (l.2 - months);
      && -DAY * MONTHS < off < DAY * MONTHS && (months == 0 ==> off == 0)
      && (months * DAYS + days * MONTHS >= 0 ==> off >= 0) && (months * DAYS + days * MONTHS <= 0 ==> off <= 0)
  {
    hide Quot;
    var total := months * DAYS + days * MONTHS;
    QuotRem(total, MONTHS);
    if months == 0 {
      ExactQuot(days, MONTHS);
    }
  }

  lemma ExactQuot(n: int, d: int)
    requires d > 0
    ensures QuotUp(n * d, d) == n
  {
    hide Quot;
    var m := if n >= 0 then n else -n;
    Times(m, d);
    QuotIs(m * d, d, m);
    Opposite(m * d, d);
  }

  lemma Times(m: int, d: int)
    requires m >= 0 && d > 0
    ensures m * d == d * m >= 0 && -(m * d) == -m * d
  {
  }

  // The opposite amounts show the opposite fields.
  lemma ShownOpposite(milliseconds: int, days: int, months: int)
    ensures Shown(-milliseconds, -days, -months) == Negated(Shown(milliseconds, days, months))
  {
    hide Quot, Rem, QuotUp;
    LevelledOpposite(milliseconds, days, months);
    hide Levelled;
    var (ms, d, m) := Levelled(milliseconds, days, months);
    Opposite(ms, 1000);
    Opposite(Quot(ms, 1000), 60);
    Opposite(ms, 60_000);
    Opposite(Quot(ms, 60_000), 60);
    Opposite(ms, 3_600_000);
    Opposite(Quot(ms, 3_600_000), 24);
    Opposite(ms, DAY);
    var allDays := d + Quot(ms, DAY);
    Opposite(allDays * MONTHS, DAYS);
    Opposite(DaysToMonths(allDays) * DAYS, MONTHS);
    Opposite(m + DaysToMonths(allDays), 12);
  }

  lemma LevelledOpposite(milliseconds: int, days: int, months: int)
    ensures var l, n := Levelled(milliseconds, days, months), Levelled(-milliseconds, -days, -months);
      n.0 == -l.0 && n.1 == -l.1 && n.2 == -l.2
  {
    hide Quot, Rem, QuotUp;
    Opposite(months * DAYS + days * MONTHS, MONTHS);
  }

  // The constructor's sums.
  datatype Parts = Parts(years: int, quarters: int, months: int, weeks: int, days: int,
                         hours: int, minutes: int, seconds: int, milliseconds: int)

  function Milliseconds(p: Parts): int { p.milliseconds + p.seconds * 1000 + p.minutes * 60_000 + p.hours * 3_600_000 }
  function Days(p: Parts): int { p.days + p.weeks * 7 }
  function Months(p: Parts): int { p.months + p.quarters * 3 + p.years * 12 }

  // A duration shows the same whatever units it was given in: a year is 12 months, a
  // quarter 3, a week 7 days, an hour 60 minutes, a minute 60 seconds, a second 1000
  // milliseconds.
  lemma UnitsAreWorth(p: Parts)
    ensures var m, d := p.months + 3 * p.quarters + 12 * p.years, p.days + 7 * p.weeks;
      var ms := p.milliseconds + 1000 * (p.seconds + 60 * (p.minutes + 60 * p.hours));
      var q := Parts(0, 0, m, 0, d, 0, 0, 0, ms);
      Shown(Milliseconds(p), Days(p), Months(p)) == Shown(Milliseconds(q), Days(q), Months(q)) == Shown(ms, d, m)
  {
    hide Shown;
  }

  function AsParts(f: Fields): Parts {
    Parts(f.years, 0, f.months, 0, f.days, f.hours, f.minutes, f.seconds, f.milliseconds)
  }

  // Fields already in range are shown as they are, so a duration built from what
  // another one shows looks the same.
  lemma NormalIsShown(f: Fields)
    requires Normal(f)
    ensures var p := AsParts(f); Shown(Milliseconds(p), Days(p), Months(p)) == f
  {
    hide Shown;
    if Upward(f) {
      NormalUp(f);
    } else {
      NormalUp(Negated(f));
      ShownOpposite(-Clock(f), -f.days, -Calendar(f));
    }
  }

  lemma NormalUp(f: Fields)
    requires Normal(f) && Upward(f)
    ensures Shown(Clock(f), f.days, Calendar(f)) == f
  {
    hide Quot, Rem, QuotUp, DaysToMonths, MonthsToDays;
    assert Levelled(Clock(f), f.days, Calendar(f)) == (Clock(f), f.days, Calendar(f));
    hide Levelled;
    ClockUp(f.milliseconds, f.seconds, f.minutes, f.hours);
    CalendarUp(f.days, f.months, f.years);
  }

  lemma ClockUp(ms: nat, s: nat, m: nat, h: nat)
    requires ms < 1000 && s < 60 && m < 60 && h < 24
    ensures var c := ms + 1000 * s + 60_000 * m + 3_600_000 * h;
      && Rem(c, 1000) == ms && Rem(Quot(c, 1000), 60) == s && Rem(Quot(c, 60_000), 60) == m
      && Rem(Quot(c, 3_600_000), 24) == h && Quot(c, DAY) == 0
  {
    hide Quot;
    var c, allMinutes := ms + 1000 * s + 60_000 * m + 3_600_000 * h, m + 60 * h;
    var allSeconds := s + 60 * allMinutes;
    QuotIs(c, 1000, allSeconds);
    QuotIs(c, 60_000, allMinutes);
    QuotIs(c, 3_600_000, h);
    QuotIs(c, DAY, 0);
    QuotIs(allSeconds, 60, allMinutes);
    QuotIs(allMinutes, 60, h);
    QuotIs(h, 24, 0);
  }

  lemma CalendarUp(days: nat, months: nat, years: nat)
    requires days <= 30 && months < 12
    ensures DaysToMonths(days) == MonthsToDays(0) == 0
    ensures Rem(months + 12 * years, 12) == months && Quot(months + 12 * years, 12) == years
  {
    hide Quot;
    QuotIs(days * MONTHS, DAYS, 0);
    QuotIs(0, MONTHS, 0);
    QuotIs(months + 12 * years, 12, years);
  }

  class Duration {
    var milliseconds: int
    var days: int
    var months: int
    var data: Fields

    ghost predicate Valid()
      reads this
    {
      data == Shown(milliseconds, days, months)
    }

    constructor (p: Parts)
      ensures milliseconds == Milliseconds(p) && days == Days(p) && months == Months(p) && Valid()
    {
      milliseconds := p.milliseconds + p.seconds * 1000 + p.minutes * 60_000 + p.hours * 1000 * 60 * 60;
      days := p.days + p.weeks * 7;
      months := p.months + p.quarters * 3 + p.years * 12;
      new;
      Bubble();
    }

    // With mixed signs, bubble down first.
    method BubbleDown() returns (milliseconds: int, days: int, months: int)
      ensures (milliseconds, days, months) == Levelled(this.milliseconds, this.days, this.months)
    {
      hide Quot, Rem, QuotUp;
      milliseconds, days, months := this.milliseconds, this.days, this.months;
      if !((milliseconds >= 0 && days >= 0 && months >= 0) || (milliseconds <= 0 && days <= 0 && months <= 0)) {
        milliseconds := milliseconds + QuotUp(months * DAYS + days * MONTHS, MONTHS) * DAY;
        days := 0;
        months := 0;
      }
    }

    method Bubble()
      modifies `data
      ensures Valid()
    {
      hide Quot, Rem, QuotUp, DaysToMonths, MonthsToDays, Levelled;
      var milliseconds, days, months := BubbleDown();
      Units(milliseconds);
      data := data.(milliseconds := Rem(milliseconds, 1000));
      var seconds := Quot(milliseconds, 1000);
      data := data.(seconds := Rem(seconds, 60));
      var minutes := Quot(seconds, 60);
      data := data.(minutes := Rem(minutes, 60));
      var hours := Quot(minutes, 60);
      data := data.(hours := Rem(hours, 24));
      days := days + Quot(hours, 24);
      var monthsFromDays := DaysToMonths(days);
      months := months + monthsFromDays;
      days := days - MonthsToDays(monthsFromDays);
      var years := Quot(months, 12);
      months := Rem(months, 12);
      data := data.(days := days, months := months, years := years);
    }

    // add and subtract, by direction 1 and -1.
    method Add(other: Parts, direction: int)
      modifies this
      ensures milliseconds == old(milliseconds) + direction * Milliseconds(other)
      ensures days == old(days) + direction * Days(other) && months == old(months) + direction * Months(other)
      ensures Valid()
    {
      milliseconds := milliseconds + direction * Milliseconds(other);
      days := days + direction * Days(other);
      months := months + direction * Months(other);
      Bubble();
    }
  }

  // Adding and then taking away leaves what was shown.
  method AddSubtract(d: Duration, other: Parts)
    requires d.Valid()
    modifies d
    ensures d.Valid() && d.data == old(d.data)
  {
    d.Add(other, 1);
    d.Add(other, -1);
  }
}
