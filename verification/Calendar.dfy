/**
 Days, weeks and months. Days are counted from Thursday 1 January 1970, months from January 1970, and instants
 are milliseconds.
 */
module Calendar {
  import opened Prelude

  const MILLIS_IN_A_DAY := 24 * 60 * 60 * 1000

  function DayOf(instant: int): int { instant / MILLIS_IN_A_DAY }

  // ---------- months ----------

  predicate Leap(year: int) { year % 4 == 0 && (year % 100 != 0 || year % 400 == 0) }

  function YearOf(month: int): int { 1970 + month / 12 }

  function MonthLength(month: int): int {
    var m := month % 12;
    if m == 1 then (if Leap(YearOf(month)) then 29 else 28)
    else if m == 3 || m == 5 || m == 8 || m == 10 then 30 else 31
  }

  /** Leap years up to and including a year. */
  function Leaps(year: int): int { year / 4 - year / 100 + year / 400 }

  function YearStart(year: int): int { 365 * (year - 1970) + Leaps(year - 1) - Leaps(1969) }

  const DAYS_BEFORE := [0, 31, 59, 90, 120, 151, 181, 212, 243, 273, 304, 334]

  function MonthStart(month: int): int {
    var m := month % 12;
    YearStart(YearOf(month)) + DAYS_BEFORE[m] + if m > 1 && Leap(YearOf(month)) then 1 else 0
  }

  lemma QuotientSteps(year: int)
    ensures year / 4 == (year - 1) / 4 + if year % 4 == 0 then 1 else 0
    ensures year / 100 == (year - 1) / 100 + if year % 100 == 0 then 1 else 0
    ensures year / 400 == (year - 1) / 400 + if year % 400 == 0 then 1 else 0
  {}

  lemma FourHundreds(year: int)
    requires year % 400 == 0
    ensures year % 100 == 0
  {
    var q := year / 400;
    assert year == 100 * (4 * q);
  }

  lemma Hundreds(year: int)
    requires year % 100 == 0
    ensures year % 4 == 0
  {
    var q := year / 100;
    assert year == 4 * (25 * q);
  }

  lemma YearStartStep(year: int)
    ensures YearStart(year + 1) == YearStart(year) + if Leap(year) then 366 else 365
  {
    QuotientSteps(year);
    if year % 400 == 0 { FourHundreds(year); }
    if year % 100 == 0 { Hundreds(year); }
  }

  /** The closed form agrees with the lengths of the months. */
  lemma MonthStartStep(month: int)
    ensures MonthStart(month + 1) == MonthStart(month) + MonthLength(month)
    ensures 28 <= MonthLength(month) <= 31
  {
    if month % 12 == 11 {
      assert (month + 1) % 12 == 0 && YearOf(month + 1) == YearOf(month) + 1;
      YearStartStep(YearOf(month));
    } else {
      assert (month + 1) % 12 == month % 12 + 1 && YearOf(month + 1) == YearOf(month);
    }
  }

  lemma DayContains(instant: int)
    ensures DayOf(instant) * 86_400_000 <= instant < (DayOf(instant) + 1) * 86_400_000
  {}

  lemma QuotientsOn(year: int)
    ensures (year + 400) / 4 == year / 4 + 100 && (year + 400) / 100 == year / 100 + 4
    ensures (year + 400) / 400 == year / 400 + 1
  {}

  lemma LeapsRecur(year: int)
    ensures Leaps(year + 400) == Leaps(year) + 97
    ensures Leap(year + 400) == Leap(year)
  {
    QuotientsOn(year);
    assert (year + 400) % 4 == year + 400 - 4 * ((year + 400) / 4) == year % 4;
    assert (year + 400) % 100 == year + 400 - 100 * ((year + 400) / 100) == year % 100;
    assert (year + 400) % 400 == year + 400 - 400 * ((year + 400) / 400) == year % 400;
  }

  lemma YearStartRecurs(year: int)
    ensures YearStart(year + 400) == YearStart(year) + 146_097
  {
    LeapsRecur(year - 1);
  }

  /** The calendar repeats every 400 years, which are 146,097 days. */
  lemma GregorianCycle(month: int)
    ensures MonthStart(month + 4800) == MonthStart(month) + 146_097
  {
    var year := YearOf(month);
    assert (month + 4800) % 12 == month % 12 && YearOf(month + 4800) == year + 400;
    YearStartRecurs(year);
    LeapsRecur(year);
  }

  lemma KnownYears()
    ensures YearStart(1900) == -25_567 && YearStart(1970) == 0 && YearStart(2000) == 10_957 && YearStart(2024) == 19_723
    ensures !Leap(1900) && Leap(2000) && Leap(2024)
  {}

  /** Months counted from January 1970 start on the days that bear their names: January 1970 itself, March 1900, which
      followed 28 days of February, and March 2000 and 2024, which followed 29. */
  lemma KnownMonths()
    ensures MonthStart(0) == 0
    ensures MonthStart(-838) == -25_508 && MonthLength(-839) == 28
    ensures MonthStart(362) == 11_017 && MonthLength(361) == 29
    ensures MonthStart(650) == 19_783 && MonthLength(649) == 29
  {
    KnownYears();
    assert YearOf(-838) == YearOf(-839) == 1900 && YearOf(362) == YearOf(361) == 2000;
    assert YearOf(650) == YearOf(649) == 2024 && YearOf(0) == 1970;
  }

  // ---------- the month of a day ----------

  predicate Lasts(months: int -> int, month: int) { months(month) + 1 <= months(month + 1) }

  ghost predicate Regular(months: int -> int) { months(0) <= 0 && forall month :: Lasts(months, month) }

  /** First days of months, each at least a day after the one before. */
  type Months = f: int -> int | Regular(f) witness (month: int) => month

  lemma {:induction false} MonthsApart(months: Months, a: int, n: nat)
    ensures months(a) + n <= months(a + n)
  {
    if n > 0 {
      MonthsApart(months, a, n - 1);
      assert Lasts(months, a + n - 1);
    }
  }

  function MonthFrom(months: Months, month: int, day: int): (m: int)
    requires months(month) <= day
    ensures months(m) <= day < months(m + 1)
    decreases day - months(month)
  {
    assert Lasts(months, month);
    if day < months(month + 1) then month else MonthFrom(months, month + 1, day)
  }

  function MonthOf(months: Months, day: int): (m: int)
    ensures months(m) <= day < months(m + 1)
  {
    MonthsApart(months, Min(day, 0), -Min(day, 0));
    MonthFrom(months, Min(day, 0), day)
  }

  lemma MonthUnique(months: Months, month: int, day: int)
    requires months(month) <= day < months(month + 1)
    ensures MonthOf(months, day) == month
  {
    var m := MonthOf(months, day);
    if m < month { MonthsApart(months, m + 1, month - m - 1); }
    if month < m { MonthsApart(months, month + 1, m - month - 1); }
  }

  lemma CivilMonthsRegular()
    ensures Regular(MonthStart)
  {
    forall month ensures Lasts(MonthStart, month) { MonthStartStep(month); }
  }

  function CivilMonths(): (r: Months)
    ensures r == MonthStart
  {
    CivilMonthsRegular();
    MonthStart
  }

  // ---------- periods ----------

  /** A way of cutting time into periods, each named by its first day: the period of a day, and the next one. */
  datatype Grouping = Grouping(period: int -> int, next: int -> int)

  predicate IsPeriod(p: int, g: Grouping) { g.period(p) == p }

  predicate Contains(p: int, day: int, g: Grouping) { IsPeriod(p, g) && p <= day < g.next(p) }

  /** Every day is in its period and in no other, and after a period comes another. */
  ghost predicate Sound(g: Grouping) {
    && (forall day :: Contains(g.period(day), day, g))
    && (forall p, day :: Contains(p, day, g) ==> g.period(day) == p)
    && (forall p :: IsPeriod(p, g) ==> IsPeriod(g.next(p), g) && p < g.next(p))
  }

  datatype Unit = Day | Week | Month

  function StartOfWeek(day: int): int { day - ((day + 4) % 7 + 6) % 7 }

  function SevenDaysOn(day: int): int { day + 7 }

  function StartOfMonth(months: Months): int -> int { day => months(MonthOf(months, day)) }

  function StartOfNextMonth(months: Months): int -> int { day => months(MonthOf(months, day) + 1) }

  /** Weeks begin on Monday, months on the first. */
  function By(unit: Unit): Grouping {
    match unit
    case Day => Grouping((day: int) => day, (p: int) => p + 1)
    case Week => ByWeek()
    case Month => ByMonth(CivilMonths())
  }

  function ByWeek(): Grouping { Grouping(StartOfWeek, SevenDaysOn) }

  function ByMonth(months: Months): Grouping { Grouping(StartOfMonth(months), StartOfNextMonth(months)) }

  lemma MonthContains(months: Months, day: int)
    ensures var first := StartOfMonth(months)(day);
            StartOfMonth(months)(first) == first && first <= day < StartOfNextMonth(months)(first)
  {
    var m := MonthOf(months, day);
    assert Lasts(months, m);
    MonthUnique(months, m, months(m));
  }

  lemma NextMonth(months: Months, day: int)
    ensures var next := StartOfNextMonth(months)(day);
            StartOfMonth(months)(next) == next && day < next
  {
    var m := MonthOf(months, day) + 1;
    assert Lasts(months, m);
    MonthUnique(months, m, months(m));
  }

  lemma MonthsSound(months: Months)
    ensures Sound(ByMonth(months))
  {
    var g := ByMonth(months);
    forall day ensures Contains(g.period(day), day, g) { MonthContains(months, day); }
    forall p, day | Contains(p, day, g) ensures g.period(day) == p { MonthUnique(months, MonthOf(months, p), day); }
    forall p | IsPeriod(p, g) ensures IsPeriod(g.next(p), g) && p < g.next(p) { NextMonth(months, p); }
  }

  lemma WeeksSound()
    ensures Sound(ByWeek())
  {
    var g := ByWeek();
    forall day ensures Contains(g.period(day), day, g) { WeekContains(day); }
    forall p, day | Contains(p, day, g) ensures g.period(day) == p { OneMonday(p, day); }
    forall p | IsPeriod(p, g) ensures IsPeriod(g.next(p), g) && p < g.next(p) { WeekContains(p); }
  }

  lemma WeekContains(day: int)
    ensures StartOfWeek(StartOfWeek(day)) == StartOfWeek(day) <= day < StartOfWeek(day) + 7
    ensures StartOfWeek(day + 7) == StartOfWeek(day) + 7
  {}

  /** Day 4 was Monday 5 January 1970: a week starts on the last Monday up to the day. */
  lemma WeeksStartOnMonday(day: int)
    ensures StartOfWeek(day) % 7 == 4 && day - 6 <= StartOfWeek(day) <= day
  {}

  lemma OneMonday(monday: int, day: int)
    requires StartOfWeek(monday) == monday <= day < monday + 7
    ensures StartOfWeek(day) == monday
  {}

  /** Days, weeks and months all cut time soundly. */
  lemma AllSound(unit: Unit)
    ensures Sound(By(unit))
  {
    match unit
    case Day =>
    case Week => WeeksSound();
    case Month => MonthsSound(CivilMonths());
  }
}
