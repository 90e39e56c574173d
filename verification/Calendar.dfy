/** The closed-form civil-date conversions of `Millis`, against a calendar that steps one day at a time. */
module Calendar {
  import opened Base

  const DAY_MS: int := 86_400_000

  datatype Date = Date(year: int, month: int, day: int)

  datatype UtcParts = UtcParts(date: Date, hour: int, minute: int, second: int)

  // ---------- the reference: one day at a time ----------

  predicate IsLeap(year: int) {
    year % 4 == 0 && (year % 100 != 0 || year % 400 == 0)
  }

  // 0 for a month that does not exist, as `days_in_month` answers.
  function DaysInMonth(year: int, month: int): int {
    if month in {1, 3, 5, 7, 8, 10, 12} then 31
    else if month in {4, 6, 9, 11} then 30
    else if month == 2 then (if IsLeap(year) then 29 else 28)
    else 0
  }

  predicate ValidDate(d: Date) {
    1 <= d.month <= 12 && 1 <= d.day <= DaysInMonth(d.year, d.month)
  }

  function NextDay(d: Date): (r: Date)
    requires ValidDate(d)
    ensures ValidDate(r)
  {
    if d.day < DaysInMonth(d.year, d.month) then d.(day := d.day + 1)
    else if d.month < 12 then Date(d.year, d.month + 1, 1)
    else Date(d.year + 1, 1, 1)
  }

  // The date reached from 1970-01-01 by stepping `n` days.
  function DateAfter(n: nat): (d: Date)
    ensures ValidDate(d) && d.year >= 1970
  {
    if n == 0 then Date(1970, 1, 1) else NextDay(DateAfter(n - 1))
  }

  predicate Before(a: Date, b: Date) {
    a.year < b.year
    || (a.year == b.year && (a.month < b.month || (a.month == b.month && a.day < b.day)))
  }

  // ---------- the closed forms ----------

  // The day number `from_utc_date` computes before it clamps and scales; day 0 is 1970-01-01.
  function DaysFromCivil(date: Date): int {
    var y := if date.month <= 2 then date.year - 1 else date.year;
    var era := y / 400;
    var yoe := y - era * 400;
    var mp := if date.month > 2 then date.month - 3 else date.month + 9;
    var doy := (153 * mp + 2) / 5 + date.day - 1;
    var doe := yoe * 365 + yoe / 4 - yoe / 100 + doy;
    era * 146_097 + doe - 719_468
  }

  function FromUtcDate(date: Date): int {
    Max(DaysFromCivil(date), 0) * DAY_MS
  }

  // Civil-from-days.
  function CivilFromDays(days: int): Date {
    var z := days + 719_468;
    var era := z / 146_097;
    var doe := z % 146_097;
    var yoe := (doe - doe / 1460 + doe / 36_524 - doe / 146_096) / 365;
    var y := yoe + era * 400;
    CivilFromDayOfYear(y, doe - (365 * yoe + yoe / 4 - yoe / 100))
  }

  // The second half of the same computation: a day of a year that starts in March.
  function CivilFromDayOfYear(y: int, doy: int): Date {
    var mp := (5 * doy + 2) / 153;
    var d := doy - (153 * mp + 2) / 5 + 1;
    var m := if mp < 10 then mp + 3 else mp - 9;
    Date(if m <= 2 then y + 1 else y, m, d)
  }

  function ToUtcParts(ms: u64): UtcParts {
    var secs := ms / 1000;
    var rem := secs % 86_400;
    UtcParts(CivilFromDays(secs / 86_400), rem / 3600, (rem % 3600) / 60, rem % 60)
  }

  // ---------- years counted from March ----------

  // Days before 1 March of the year `y`, without eras.
  function YearStart(y: int): int {
    365 * y + y / 4 - y / 100 + y / 400
  }

  // Day of the March-based year on which the March-based month `mp` starts.
  function MonthStart(mp: int): int { (153 * mp + 2) / 5 }

  // The March-based year ends with the February of the next civil year.
  function YearLength(y: int): int { if IsLeap(y + 1) then 366 else 365 }

  lemma EraIsFlat(y: int)
    ensures var era := y / 400; var yoe := y - era * 400;
            0 <= yoe < 400
            && era * 146_097 + yoe * 365 + yoe / 4 - yoe / 100 == YearStart(y)
  {
    var era := y / 400;
    var yoe := y - era * 400;
    assert y / 100 == 4 * era + yoe / 100;
    assert y / 4 == 100 * era + yoe / 4;
  }

  lemma NextQuotient(y: int, d: int)
    requires d > 0
    ensures (y + 1) / d == y / d + (if (y + 1) % d == 0 then 1 else 0)
  {
    var r := y % d;
    assert y == (y / d) * d + r;
    if r + 1 < d {
      DivisionIsUnique(y + 1, d, y / d, r + 1);
    } else {
      assert y + 1 == (y / d + 1) * d;
      DivisionIsUnique(y + 1, d, y / d + 1, 0);
    }
  }

  lemma CenturiesAreOlympic(y: int)
    ensures y % 400 == 0 ==> y % 100 == 0
    ensures y % 100 == 0 ==> y % 4 == 0
  {
    if y % 400 == 0 {
      DivisionIsUnique(y, 100, 4 * (y / 400), 0);
    }
    if y % 100 == 0 {
      DivisionIsUnique(y, 4, 25 * (y / 100), 0);
    }
  }

  lemma YearStartsAreApart(y: int)
    ensures YearStart(y + 1) == YearStart(y) + YearLength(y)
  {
    NextQuotient(y, 4);
    NextQuotient(y, 100);
    NextQuotient(y, 400);
    CenturiesAreOlympic(y + 1);
  }

  function MarchYear(date: Date): int {
    if date.month <= 2 then date.year - 1 else date.year
  }

  function MarchMonth(date: Date): int {
    if date.month > 2 then date.month - 3 else date.month + 9
  }

  // The day number without eras.
  function FlatDays(date: Date): int {
    YearStart(MarchYear(date)) + MonthStart(MarchMonth(date)) + date.day - 1 - 719_468
  }

  lemma DaysAreFlat(date: Date)
    ensures DaysFromCivil(date) == FlatDays(date)
  {
    EraIsFlat(MarchYear(date));
  }

  lemma FlatStep(date: Date)
    requires ValidDate(date)
    ensures FlatDays(NextDay(date)) == FlatDays(date) + 1
  {
    var next := NextDay(date);
    if date.day < DaysInMonth(date.year, date.month) {
    } else if date.month == 2 {
      YearStartsAreApart(MarchYear(date));
      assert MarchYear(next) == MarchYear(date) + 1;
    } else {
      assert MarchYear(next) == MarchYear(date);
      assert MonthStart(MarchMonth(next)) == MonthStart(MarchMonth(date)) + DaysInMonth(date.year, date.month);
    }
  }

  // Stepping the calendar by a day steps the closed form by one.
  lemma NextDayCountsOne(date: Date)
    requires ValidDate(date)
    ensures DaysFromCivil(NextDay(date)) == DaysFromCivil(date) + 1
  {
    FlatStep(date);
    DaysAreFlat(date);
    DaysAreFlat(NextDay(date));
  }

  lemma EpochIsDayZero()
    ensures DaysFromCivil(Date(1970, 1, 1)) == 0
  {
  }

  lemma {:induction false} SteppingIsCounting(n: nat)
    ensures DaysFromCivil(DateAfter(n)) == n
  {
    if n == 0 {
      EpochIsDayZero();
    } else {
      hide DaysFromCivil;
      SteppingIsCounting(n - 1);
      NextDayCountsOne(DateAfter(n - 1));
    }
  }

  // ---------- the year-of-era formula ----------

  // The digits of a year of era: century, olympiad, year.
  lemma YearOfEra(c: int, q: int, r: int, doy: int)
    requires 0 <= c <= 3 && 0 <= q <= 24 && 0 <= r <= 3 && 0 <= doy <= 365
    requires doy == 365 ==> r == 3 && (q < 24 || c == 3)
    ensures var yoe := 100 * c + 4 * q + r;
            var doe := yoe * 365 + yoe / 4 - yoe / 100 + doy;
            0 <= doe < 146_097
            && (doe - doe / 1460 + doe / 36_524 - doe / 146_096) / 365 == yoe
  {
    var yoe := 100 * c + 4 * q + r;
    DivisionIsUnique(yoe, 100, c, 4 * q + r);
    DivisionIsUnique(yoe, 4, 25 * c + q, r);
    YearFromDay(c, q, r, doy, 36_524 * c + 1461 * q + 365 * r + doy);
  }

  lemma YearFromDay(c: int, q: int, r: int, doy: int, doe: int)
    requires 0 <= c <= 3 && 0 <= q <= 24 && 0 <= r <= 3 && 0 <= doy <= 365
    requires doy == 365 ==> r == 3 && (q < 24 || c == 3)
    requires doe == 36_524 * c + 1461 * q + 365 * r + doy
    ensures 0 <= doe < 146_097
    ensures (doe - doe / 1460 + doe / 36_524 - doe / 146_096) / 365 == 100 * c + 4 * q + r
  {
    var spare := 24 * c + q + 365 * r + doy;
    var k := if spare >= 1460 then 1 else 0;
    DivisionIsUnique(doe, 1460, 25 * c + q + k, spare - 1460 * k);
    Centuries(c, 1461 * q + 365 * r + doy);
    DivisionIsUnique(doe - (25 * c + q + k) + c, 365, 100 * c + 4 * q + r, doy - k);
  }

  // The last day of an era would start a fifth century.
  lemma Centuries(c: int, rest: int)
    requires 0 <= c <= 3 && 0 <= rest <= 36_524 && (rest == 36_524 ==> c == 3)
    ensures var doe := 36_524 * c + rest; doe / 36_524 - doe / 146_096 == c
  {
    var doe := 36_524 * c + rest;
    if rest < 36_524 {
      DivisionIsUnique(doe, 36_524, c, rest);
      DivisionIsUnique(doe, 146_096, 0, doe);
    }
  }

  // The last day of a March-based year of 366 days falls in a year of era YearOfEra allows it in.
  lemma LeapDay(y: int)
    requires IsLeap(y + 1)
    ensures var yoe := y - y / 400 * 400;
            yoe % 4 == 3 && (yoe % 100 / 4 < 24 || yoe / 100 == 3)
  {
    var era := y / 400;
    var yoe := y - era * 400;
    LeapsRecur(era, yoe + 1);
    LeapDayOfEra(yoe);
  }

  // The calendar repeats after 400 years.
  lemma LeapsRecur(era: int, x: int)
    ensures IsLeap(400 * era + x) <==> IsLeap(x)
  {
    DivisionIsUnique(400 * era + x, 4, 100 * era + x / 4, x % 4);
    DivisionIsUnique(400 * era + x, 100, 4 * era + x / 100, x % 100);
    DivisionIsUnique(400 * era + x, 400, era + x / 400, x % 400);
  }

  lemma LeapDayOfEra(yoe: int)
    requires 0 <= yoe < 400 && IsLeap(yoe + 1)
    ensures yoe % 4 == 3 && (yoe % 100 / 4 < 24 || yoe / 100 == 3)
  {
    NextQuotient(yoe, 4);
    NextQuotient(yoe, 100);
  }

  lemma YearDigits(yoe: int)
    requires 0 <= yoe < 400
    ensures 0 <= yoe / 100 <= 3 && 0 <= yoe % 100 / 4 <= 24 && 0 <= yoe % 4 <= 3
    ensures 100 * (yoe / 100) + 4 * (yoe % 100 / 4) + yoe % 4 == yoe
  {
    var c, rest := yoe / 100, yoe % 100;
    DivisionIsUnique(yoe, 4, 25 * c + rest / 4, rest % 4);
  }

  // Cutting a day number into era, year of era and day of year, as `to_utc_parts` does.
  lemma EraSplit(y: int, doy: int, z: int)
    requires 0 <= doy <= 365
    requires doy == 365 ==> IsLeap(y + 1)
    requires var era := y / 400; var yoe := y - era * 400;
             z == era * 146_097 + yoe * 365 + yoe / 4 - yoe / 100 + doy
    ensures var era := y / 400; var yoe := y - era * 400;
            var doe := z % 146_097;
            z / 146_097 == era
            && doe == yoe * 365 + yoe / 4 - yoe / 100 + doy
            && (doe - doe / 1460 + doe / 36_524 - doe / 146_096) / 365 == yoe
  {
    var era := y / 400;
    var yoe := y - era * 400;
    if doy == 365 { LeapDay(y); }
    EraSplitAt(era, yoe, doy, z);
  }

  lemma EraSplitAt(era: int, yoe: int, doy: int, z: int)
    requires 0 <= yoe < 400 && 0 <= doy <= 365
    requires doy == 365 ==> yoe % 4 == 3 && (yoe % 100 / 4 < 24 || yoe / 100 == 3)
    requires z == era * 146_097 + yoe * 365 + yoe / 4 - yoe / 100 + doy
    ensures var doe := z % 146_097;
            z / 146_097 == era
            && doe == yoe * 365 + yoe / 4 - yoe / 100 + doy
            && (doe - doe / 1460 + doe / 36_524 - doe / 146_096) / 365 == yoe
  {
    YearDigits(yoe);
    YearOfEra(yoe / 100, yoe % 100 / 4, yoe % 4, doy);
    DivisionIsUnique(z, 146_097, era, yoe * 365 + yoe / 4 - yoe / 100 + doy);
  }

  lemma DivisionIsUnique(z: int, d: int, q: int, r: int)
    requires 0 <= r < d && z == q * d + r
    ensures z / d == q && z % d == r
  {
    var k := z / d - q;
    assert k * d == r - z % d;
    assert k >= 1 ==> k * d >= d;
    assert k <= -1 ==> k * d <= -d;
  }

  // The conversion back recovers every valid date, of any year.
  lemma CivilRoundTrip(date: Date)
    requires ValidDate(date)
    ensures CivilFromDays(DaysFromCivil(date)) == date
  {
    hide CivilFromDays, DaysFromCivil, EraDays;
    MarchDayIsSound(date);
    CivilFromMarch(MarchYear(date), MarchMonth(date), date.day);
    DaysAreMarch(date);
  }

  lemma DaysAreMarch(date: Date)
    ensures DaysFromCivil(date) == EraDays(MarchYear(date), MarchMonth(date), date.day)
  {
  }

  function EraDays(y: int, mp: int, day: int): int {
    var era := y / 400;
    var yoe := y - era * 400;
    era * 146_097 + yoe * 365 + yoe / 4 - yoe / 100 + MonthStart(mp) + day - 1 - 719_468
  }

  lemma MarchDayIsSound(date: Date)
    requires ValidDate(date)
    ensures var doy := MonthStart(MarchMonth(date)) + date.day - 1;
            0 <= doy <= 365 && (5 * doy + 2) / 153 == MarchMonth(date)
            && (doy == 365 ==> IsLeap(MarchYear(date) + 1))
  {
  }

  lemma CivilFromMarch(y: int, mp: int, day: int)
    requires var doy := MonthStart(mp) + day - 1;
             0 <= mp <= 11 && 0 <= doy <= 365 && (5 * doy + 2) / 153 == mp
             && (doy == 365 ==> IsLeap(y + 1))
    ensures CivilFromDays(EraDays(y, mp, day)) == CivilFromDayOfYear(y, MonthStart(mp) + day - 1)
  {
    hide IsLeap, CivilFromDayOfYear;
    EraSplit(y, MonthStart(mp) + day - 1, EraDays(y, mp, day) + 719_468);
  }

  // ---------- main results ----------

  // For every day from the epoch on, the closed form is the stepped date.
  lemma ClosedFormIsStepping(n: nat)
    ensures CivilFromDays(n) == DateAfter(n)
  {
    hide CivilFromDays, DaysFromCivil;
    SteppingIsCounting(n);
    CivilRoundTrip(DateAfter(n));
  }

  // The sign and order of day numbers are those of dates.
  lemma DayNumbersAreOrdered(a: Date, b: Date)
    requires ValidDate(a) && ValidDate(b)
    ensures Before(a, b) <==> DaysFromCivil(a) < DaysFromCivil(b)
  {
    if Before(a, b) {
      EarlierDatesCountLess(a, b);
    } else if a != b {
      EarlierDatesCountLess(b, a);
    }
  }

  lemma EarlierDatesCountLess(a: Date, b: Date)
    requires ValidDate(a) && ValidDate(b) && Before(a, b)
    ensures DaysFromCivil(a) < DaysFromCivil(b)
  {
    DaysAreFlat(a);
    DaysAreFlat(b);
    FlatOrder(a, b);
  }

  lemma FlatOrder(a: Date, b: Date)
    requires ValidDate(a) && ValidDate(b) && Before(a, b)
    ensures FlatDays(a) < FlatDays(b)
  {
    hide YearStart, MonthStart, YearLength, Before, ValidDate;
    MarchOrder(a, b);
    DayFitsItsMonth(a);
    DayFitsItsMonth(b);
    var ya, yb := MarchYear(a), MarchYear(b);
    if ya < yb {
      YearStartsAreApart(ya);
      YearStartGrows(ya + 1, yb);
    } else if MarchMonth(a) < MarchMonth(b) {
      MonthStartsGrow(MarchMonth(a), MarchMonth(b));
    }
  }

  // Starting the year in March keeps the order of dates.
  lemma MarchOrder(a: Date, b: Date)
    requires ValidDate(a) && ValidDate(b) && Before(a, b)
    ensures MarchYear(a) < MarchYear(b)
         || (MarchYear(a) == MarchYear(b)
             && (MarchMonth(a) < MarchMonth(b) || (MarchMonth(a) == MarchMonth(b) && a.day < b.day)))
    ensures 0 <= MarchMonth(a) <= 11 && 0 <= MarchMonth(b) <= 11
  {
  }

  lemma DayFitsItsMonth(d: Date)
    requires ValidDate(d)
    ensures d.day >= 1 && MonthStart(MarchMonth(d)) >= 0
    ensures MonthStart(MarchMonth(d)) + d.day <= YearLength(MarchYear(d))
    ensures MarchMonth(d) < 11 ==> MonthStart(MarchMonth(d)) + d.day <= MonthStart(MarchMonth(d) + 1)
  {
  }

  lemma MonthStartsGrow(a: int, b: int)
    requires a < b
    ensures MonthStart(a + 1) <= MonthStart(b)
  {
  }

  lemma YearStartGrows(a: int, b: int)
    requires a <= b
    ensures YearStart(a) <= YearStart(b)
  {
  }

  // Every valid date from 1970 on is one the stepping reaches, at its own day number.
  lemma EveryDateIsReached(date: Date)
    requires ValidDate(date) && date.year >= 1970
    ensures DaysFromCivil(date) >= 0 && DateAfter(DaysFromCivil(date)) == date
  {
    hide CivilFromDays, DaysFromCivil;
    EpochIsDayZero();
    DayNumbersAreOrdered(date, Date(1970, 1, 1));
    CivilRoundTrip(date);
    ClosedFormIsStepping(DaysFromCivil(date));
  }

  // Whole days and the seconds within one.
  lemma DaySplit(ms: u64)
    ensures var secs := ms / 1000; var rem := secs % 86_400;
            secs / 86_400 == ms / DAY_MS
            && 0 <= rem < 86_400
            && ms / DAY_MS * DAY_MS + rem * 1000 == ms - ms % 1000
  {
  }

  lemma ClockSplit(rem: int)
    requires 0 <= rem < 86_400
    ensures 0 <= rem / 3600 <= 23 && 0 <= (rem % 3600) / 60 <= 59 && 0 <= rem % 60 <= 59
    ensures rem / 3600 * 3600 + (rem % 3600) / 60 * 60 + rem % 60 == rem
  {
  }

  // `to_utc_parts` names the stepped date and the time of day, for every instant.
  lemma PartsAreTheSteppedDate(ms: u64)
    ensures var p := ToUtcParts(ms);
            p.date == DateAfter(ms / DAY_MS)
            && 0 <= p.hour <= 23 && 0 <= p.minute <= 59 && 0 <= p.second <= 59
            && FromUtcDate(p.date) + (p.hour * 3600 + p.minute * 60 + p.second) * 1000 == ms - ms % 1000
  {
    hide CivilFromDays;
    var n := ms / DAY_MS;
    DaySplit(ms);
    ClockSplit(ms / 1000 % 86_400);
    ClosedFormIsStepping(n);
    MidnightOfStep(n);
  }

  lemma MidnightOfStep(n: nat)
    ensures FromUtcDate(DateAfter(n)) == n * DAY_MS
  {
    SteppingIsCounting(n);
  }

  lemma InstantSplit(n: nat, rem: int)
    requires 0 <= rem < 86_400
    ensures var secs := (n * DAY_MS + rem * 1000) / 1000;
            secs / 86_400 == n && secs % 86_400 == rem
  {
  }

  lemma ClockParts(hour: int, minute: int, second: int)
    requires 0 <= hour <= 23 && 0 <= minute <= 59 && 0 <= second <= 59
    ensures var rem := hour * 3600 + minute * 60 + second;
            0 <= rem < 86_400 && rem / 3600 == hour && rem % 3600 / 60 == minute && rem % 60 == second
  {
  }

  // The parts of a midnight plus a time of day.
  lemma PartsOfInstant(n: nat, hour: int, minute: int, second: int)
    requires 0 <= hour <= 23 && 0 <= minute <= 59 && 0 <= second <= 59
    requires n * DAY_MS + (hour * 3600 + minute * 60 + second) * 1000 <= U64_MAX
    ensures ToUtcParts(n * DAY_MS + (hour * 3600 + minute * 60 + second) * 1000)
            == UtcParts(DateAfter(n), hour, minute, second)
  {
    hide CivilFromDays;
    ClockParts(hour, minute, second);
    InstantSplit(n, hour * 3600 + minute * 60 + second);
    ClosedFormIsStepping(n);
  }

  // Midnight of a date and back: exact for every valid date from 1970 on, and for no earlier one,
  // because earlier dates are clamped to the epoch.
  lemma MidnightRoundTrip(date: Date)
    requires ValidDate(date) && FromUtcDate(date) <= U64_MAX
    ensures ToUtcParts(FromUtcDate(date)) == UtcParts(date, 0, 0, 0) <==> date.year >= 1970
    ensures date.year < 1970 ==> FromUtcDate(date) == 0
  {
    if date.year >= 1970 {
      LateMidnight(date);
    } else {
      EarlyDatesClamp(date);
      EpochParts();
    }
  }

  lemma EpochParts()
    ensures ToUtcParts(0) == UtcParts(Date(1970, 1, 1), 0, 0, 0)
  {
    PartsOfInstant(0, 0, 0, 0);
  }

  lemma LateMidnight(date: Date)
    requires ValidDate(date) && date.year >= 1970 && FromUtcDate(date) <= U64_MAX
    ensures ToUtcParts(FromUtcDate(date)) == UtcParts(date, 0, 0, 0)
  {
    hide CivilFromDays;
    EveryDateIsReached(date);
    PartsOfInstant(DaysFromCivil(date), 0, 0, 0);
  }

  lemma EarlyDatesClamp(date: Date)
    requires ValidDate(date) && date.year < 1970
    ensures FromUtcDate(date) == 0
  {
  }
}
