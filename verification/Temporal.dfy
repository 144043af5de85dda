/** Calendar dates: the closed-form conversions between a civil date and a day
    ordinal, and the addition of days that deadlines are computed with. */
module Temporal {
  import opened Wrappers

  /** A civil date; `Date.New` admits years 1 to 9999 only, the conversions any year. */
  datatype Date = Date(year: int, month: int, day: int)

  const I32_MIN := -0x8000_0000
  const I32_MAX := 0x7fff_ffff

  predicate IsLeapYear(year: int) {
    year % 4 == 0 && (year % 100 != 0 || year % 400 == 0)
  }

  function DaysInMonth(year: int, month: int): int {
    if month == 4 || month == 6 || month == 9 || month == 11 then 30
    else if month == 2 then if IsLeapYear(year) then 29 else 28
    else 31
  }

  /** A real day of the proleptic Gregorian calendar, in any year. */
  predicate IsCivil(d: Date) {
    1 <= d.month <= 12 && 1 <= d.day <= DaysInMonth(d.year, d.month)
  }

  predicate InYearRange(year: int) { 1 <= year <= 9999 }

  predicate IsDate(d: Date) { IsCivil(d) && InYearRange(d.year) }

  function New(year: int, month: int, day: int): (r: Result<Date>)
    ensures r == if IsDate(Date(year, month, day)) then Ok(Date(year, month, day)) else Err(InvalidInput)
  {
    if !InYearRange(year) || !(1 <= month <= 12) then Err(InvalidInput)
    else if day == 0 || day > DaysInMonth(year, month) || day < 0 then Err(InvalidInput)
    else Ok(Date(year, month, day))
  }

  function DaysFromCivil(d: Date): int {
    var adjustedYear := d.year - if d.month <= 2 then 1 else 0;
    var era := adjustedYear / 400;
    var yearOfEra := adjustedYear - era * 400;
    var adjustedMonth := d.month + if d.month > 2 then -3 else 9;
    var dayOfYear := (153 * adjustedMonth + 2) / 5 + d.day - 1;
    var dayOfEra := yearOfEra * 365 + yearOfEra / 4 - yearOfEra / 100 + dayOfYear;
    era * 146_097 + dayOfEra - 719_468
  }

  function YearOfEra(dayOfEra: int): int {
    (dayOfEra - dayOfEra / 1460 + dayOfEra / 36_524 - dayOfEra / 146_096) / 365
  }

  /** The year before it is narrowed to 32 bits, the month and the day. */
  function WideCivilFromDays(days: int): Date {
    var shifted := days + 719_468;
    var era := shifted / 146_097;
    var dayOfEra := shifted - era * 146_097;
    var yearOfEra := YearOfEra(dayOfEra);
    var dayOfYear := dayOfEra - (365 * yearOfEra + yearOfEra / 4 - yearOfEra / 100);
    var monthPrime := (5 * dayOfYear + 2) / 153;
    var day := dayOfYear - (153 * monthPrime + 2) / 5 + 1;
    var month := monthPrime + if monthPrime < 10 then 3 else -9;
    Date(yearOfEra + era * 400 + if month <= 2 then 1 else 0, month, day)
  }

  function CivilFromDays(days: int): Date {
    var wide := WideCivilFromDays(days);
    if I32_MIN <= wide.year <= I32_MAX then wide else wide.(year := I32_MAX)
  }

  /** `checked_add_days`; the source passes a 32-bit number of days. */
  function CheckedAddDays(d: Date, days: int): Result<Date> {
    var sum := CivilFromDays(DaysFromCivil(d) + days);
    New(sum.year, sum.month, sum.day)
  }

  // ---- The calendar, one day at a time ----

  function NextDay(d: Date): Date {
    if d.day < DaysInMonth(d.year, d.month) then d.(day := d.day + 1)
    else if d.month < 12 then Date(d.year, d.month + 1, 1)
    else Date(d.year + 1, 1, 1)
  }

  function PreviousDay(d: Date): Date {
    if d.day > 1 then d.(day := d.day - 1)
    else if d.month > 1 then Date(d.year, d.month - 1, DaysInMonth(d.year, d.month - 1))
    else Date(d.year - 1, 12, 31)
  }

  /** `days` single steps: forward when positive, backward when negative. */
  function Walk(d: Date, days: int): Date
    decreases if days < 0 then -days else days
  {
    if days == 0 then d
    else if days > 0 then Walk(NextDay(d), days - 1)
    else Walk(PreviousDay(d), days + 1)
  }

  /** The derived ordering: year, then month, then day. */
  predicate Before(a: Date, b: Date) {
    a.year < b.year || (a.year == b.year && (a.month < b.month || (a.month == b.month && a.day < b.day)))
  }

  // ---- Conversions are mutually inverse ----

  /** Days of a 400-year era before the year `y` of that era (years start on 1 March). */
  function EraDays(y: int): int { 365 * y + y / 4 - y / 100 }

  /** A day of an era as centuries, four-year groups, and a rest of at most 1460 days. */
  lemma YearOfEraInGroup(dayOfEra: int, century: int, group: int, rest: int)
    requires 0 <= century <= 3 && 0 <= group <= 24 && 0 <= rest <= 1460
    requires dayOfEra == 36_524 * century + 1461 * group + rest
    requires dayOfEra < 146_097
    requires group == 24 && century < 3 ==> rest < 1460
    ensures YearOfEra(dayOfEra) == 100 * century + 4 * group + if rest == 1460 then 3 else rest / 365
  {
    var late := if 24 * century + group + rest >= 1460 then 1 else 0;
    var last := if dayOfEra == 146_096 then 1 else 0;
    assert dayOfEra / 1460 == 25 * century + group + late;
    assert dayOfEra / 36_524 == century + last;
    assert dayOfEra / 146_096 == last;
  }

  lemma YearOfEraBrackets(dayOfEra: int)
    requires 0 <= dayOfEra < 146_097
    ensures var y := YearOfEra(dayOfEra);
      && 0 <= y < 400 && EraDays(y) <= dayOfEra
      && (dayOfEra < EraDays(y + 1) || (y == 399 && dayOfEra == 146_096))
  {
    var century := if dayOfEra == 146_096 then 3 else dayOfEra / 36_524;
    var inCentury := dayOfEra - 36_524 * century;
    var group := inCentury / 1461;
    var rest := inCentury - 1461 * group;
    YearOfEraInGroup(dayOfEra, century, group, rest);
    var inGroup := if rest == 1460 then 3 else rest / 365;
    EraDaysInGroup(century, group, inGroup);
  }

  lemma EraDaysInGroup(century: int, group: int, inGroup: int)
    requires 0 <= century <= 3 && 0 <= group <= 24 && 0 <= inGroup <= 3
    ensures var y := 100 * century + 4 * group + inGroup;
      && EraDays(y) == 36_524 * century + 1461 * group + 365 * inGroup
      && EraDays(y + 1) == EraDays(y) + 365
           + (if inGroup == 3 then 1 else 0) - (if inGroup == 3 && group == 24 then 1 else 0)
  {
    var y := 100 * century + 4 * group + inGroup;
    QuotientUnique(y, 4, 25 * century + group, inGroup);
    QuotientUnique(y, 100, century, 4 * group + inGroup);
    if inGroup < 3 {
      QuotientUnique(y + 1, 4, 25 * century + group, inGroup + 1);
    } else {
      QuotientUnique(y + 1, 4, 25 * century + group + 1, 0);
    }
    if inGroup == 3 && group == 24 {
      QuotientUnique(y + 1, 100, century + 1, 0);
    } else {
      QuotientUnique(y + 1, 100, century, 4 * group + inGroup + 1);
    }
  }

  /** The length of the year that starts on 1 March of `year`: it ends with February of `year + 1`. */
  function MarchYearLength(year: int): int { if IsLeapYear(year + 1) then 366 else 365 }

  lemma LeapYearsRepeat(year: int, era: int)
    ensures IsLeapYear(year + 400 * era) == IsLeapYear(year)
  {
    assert year + 400 * era == year + 4 * (100 * era) == year + 100 * (4 * era);
    SameRemainder(year, 100 * era, 4);
    SameRemainder(year, 4 * era, 100);
    SameRemainder(year, era, 400);
  }

  lemma SameRemainder(a: int, k: int, m: int)
    requires m > 0
    ensures (a + m * k) % m == a % m && (a + m * k) / m == a / m + k
  {
    var q, r := a / m, a % m;
    assert a + m * k == m * (q + k) + r by { assert a == m * q + r; assert m * (q + k) == m * q + m * k; }
    QuotientUnique(a + m * k, m, q + k, r);
  }

  lemma QuotientUnique(a: int, m: int, q: int, r: int)
    requires m > 0 && 0 <= r < m && a == m * q + r
    ensures a / m == q && a % m == r
  {
    var d := a / m - q;
    assert m * d == r - a % m by { assert a == m * (a / m) + a % m; assert m * (a / m - q) == m * (a / m) - m * q; }
    assert d > 0 ==> m * d >= m;
    assert d < 0 ==> m * d <= -m;
  }

  /** The year counted from 1 March. */
  function MarchYear(d: Date): int { d.year - if d.month <= 2 then 1 else 0 }

  /** An ordinal from the era, the March year in it, and the day of that year. */
  lemma OrdinalInEra(d: Date, era: int, y: int)
    requires 0 <= y < 400 && y + 400 * era == MarchYear(d)
    ensures DaysFromCivil(d) == era * 146_097 + EraDays(y)
      + (153 * (d.month + if d.month > 2 then -3 else 9) + 2) / 5 + d.day - 1 - 719_468
  {
    QuotientUnique(y + 400 * era, 400, era, y);
  }

  /** Days from 1 March of `year` to 1 March of `year + 1`, counted from the ordinals. */
  lemma MarchYears(year: int)
    ensures DaysFromCivil(Date(year + 1, 3, 1)) == DaysFromCivil(Date(year, 3, 1)) + MarchYearLength(year)
  {
    var era := year / 400;
    var y := year - 400 * era;
    OrdinalInEra(Date(year, 3, 1), era, y);
    if y == 399 {
      OrdinalInEra(Date(year + 1, 3, 1), era + 1, 0);
    } else {
      OrdinalInEra(Date(year + 1, 3, 1), era, y + 1);
    }
    LeapYearsRepeat(y + 1, era);
    MarchYearLengthInEra(y);
  }

  lemma MarchYearLengthInEra(y: int)
    requires 0 <= y < 400
    ensures MarchYearLength(y) == if y == 399 then 146_097 - EraDays(y) else EraDays(y + 1) - EraDays(y)
  {
    var century, group := y / 100, y % 100 / 4;
    EraDaysInGroup(century, group, y - 100 * century - 4 * group);
  }

  /** The year, counted from 1 March, that an ordinal falls in. */
  lemma MarchYearOfDays(days: int)
    ensures var shifted := days + 719_468; var era := shifted / 146_097;
      var dayOfEra := shifted - era * 146_097; var y := YearOfEra(dayOfEra);
      0 <= y < 400 && 0 <= dayOfEra - EraDays(y) < MarchYearLength(y + 400 * era)
  {
    var shifted := days + 719_468;
    var era := shifted / 146_097;
    var dayOfEra := shifted - era * 146_097;
    YearOfEraBrackets(dayOfEra);
    MarchYearLengthInEra(YearOfEra(dayOfEra));
    LeapYearsRepeat(YearOfEra(dayOfEra) + 1, era);
  }

  /** The month table is exact: day of the March year to month and day, and back. */
  lemma MonthOfDay(dayOfYear: int)
    requires 0 <= dayOfYear <= 365
    ensures var m := (5 * dayOfYear + 2) / 153; var day := dayOfYear - (153 * m + 2) / 5 + 1;
      && 0 <= m <= 11 && 1 <= day
      && (m == 11 ==> day == dayOfYear - 336)
      && (m < 11 ==> day <= DaysInMonth(1, if m < 10 then m + 3 else m - 9))
  {
  }

  /** Every ordinal names a real civil day, and that day's ordinal is the ordinal. */
  lemma WideDaysRoundTrip(days: int)
    ensures IsCivil(WideCivilFromDays(days))
    ensures DaysFromCivil(WideCivilFromDays(days)) == days
  {
    MarchYearOfDays(days);
    var era := (days + 719_468) / 146_097;
    var dayOfEra := days + 719_468 - era * 146_097;
    var y := YearOfEra(dayOfEra);
    MonthOfDay(dayOfEra - EraDays(y));
    hide DaysFromCivil;
    OrdinalInEra(WideCivilFromDays(days), era, y);
  }

  lemma OrdinalOfNextDay(d: Date)
    requires IsCivil(d)
    ensures IsCivil(NextDay(d)) && DaysFromCivil(NextDay(d)) == DaysFromCivil(d) + 1
  {
    hide DaysFromCivil, IsLeapYear;
    var era := MarchYear(d) / 400;
    var y := MarchYear(d) - 400 * era;
    OrdinalInEra(d, era, y);
    if d.month == 2 && d.day == DaysInMonth(d.year, 2) {
      OrdinalInEra(Date(d.year - 1, 3, 1), era, y);
      MarchYears(d.year - 1);
    } else {
      hide NextDay;
      NextDayInMarchYear(d);
      OrdinalInEra(NextDay(d), era, y);
    }
  }

  lemma NextDayInMarchYear(d: Date)
    requires IsCivil(d) && !(d.month == 2 && d.day == DaysInMonth(d.year, 2))
    ensures IsCivil(NextDay(d)) && MarchYear(NextDay(d)) == MarchYear(d)
    ensures (153 * (NextDay(d).month + if NextDay(d).month > 2 then -3 else 9) + 2) / 5 + NextDay(d).day
         == (153 * (d.month + if d.month > 2 then -3 else 9) + 2) / 5 + d.day + 1
  {
  }

  lemma OrdinalOfPreviousDay(d: Date)
    requires IsCivil(d)
    ensures IsCivil(PreviousDay(d)) && DaysFromCivil(PreviousDay(d)) == DaysFromCivil(d) - 1
  {
    PreviousThenNext(d);
    hide DaysFromCivil, NextDay, PreviousDay, IsCivil;
    OrdinalOfNextDay(PreviousDay(d));
  }

  lemma PreviousThenNext(d: Date)
    requires IsCivil(d)
    ensures IsCivil(PreviousDay(d)) && NextDay(PreviousDay(d)) == d
  {
  }

  /** Single steps count ordinals. */
  lemma {:induction false} WalkOrdinal(d: Date, days: int)
    requires IsCivil(d)
    ensures IsCivil(Walk(d, days)) && DaysFromCivil(Walk(d, days)) == DaysFromCivil(d) + days
    decreases if days < 0 then -days else days
  {
    if days > 0 {
      OrdinalOfNextDay(d);
      WalkOrdinal(NextDay(d), days - 1);
    } else if days < 0 {
      OrdinalOfPreviousDay(d);
      WalkOrdinal(PreviousDay(d), days + 1);
    }
  }

  /** The derived ordering of dates is the ordering of their ordinals. */
  lemma OrderIsOrdinalOrder(a: Date, b: Date)
    requires IsCivil(a) && IsCivil(b)
    ensures Before(a, b) <==> DaysFromCivil(a) < DaysFromCivil(b)
  {
    if Before(a, b) {
      OrdinalsIncrease(a, b);
    } else if Before(b, a) {
      OrdinalsIncrease(b, a);
    }
  }

  lemma OrdinalsIncrease(a: Date, b: Date)
    requires IsCivil(a) && IsCivil(b) && Before(a, b)
    ensures DaysFromCivil(a) < DaysFromCivil(b)
  {
    if MarchYear(a) == MarchYear(b) {
      var era := MarchYear(a) / 400;
      OrdinalInEra(a, era, MarchYear(a) - 400 * era);
      OrdinalInEra(b, era, MarchYear(b) - 400 * era);
      DaysOfYearIncrease(a, b);
    } else {
      OrdinalsIncreaseAcrossYears(a, b);
    }
  }

  lemma DaysOfYearIncrease(a: Date, b: Date)
    requires IsCivil(a) && IsCivil(b) && Before(a, b) && MarchYear(a) == MarchYear(b)
    ensures (153 * (a.month + if a.month > 2 then -3 else 9) + 2) / 5 + a.day
          < (153 * (b.month + if b.month > 2 then -3 else 9) + 2) / 5 + b.day
  {
  }

  lemma OrdinalsIncreaseAcrossYears(a: Date, b: Date)
    requires IsCivil(a) && IsCivil(b) && MarchYear(a) < MarchYear(b)
    ensures DaysFromCivil(a) < DaysFromCivil(b)
  {
    calc {
      DaysFromCivil(a);
    < { FirstOfMarchOrder(a); }
      DaysFromCivil(Date(MarchYear(a), 3, 1)) + MarchYearLength(MarchYear(a));
    == { MarchYears(MarchYear(a)); }
      DaysFromCivil(Date(MarchYear(a) + 1, 3, 1));
    <= { FirstsOfMarchIncrease(MarchYear(a) + 1, MarchYear(b)); }
      DaysFromCivil(Date(MarchYear(b), 3, 1));
    <= { FirstOfMarchOrder(b); }
      DaysFromCivil(b);
    }
  }

  /** A civil day lies in its March year. */
  lemma FirstOfMarchOrder(d: Date)
    requires IsCivil(d)
    ensures var first := DaysFromCivil(Date(MarchYear(d), 3, 1));
      first <= DaysFromCivil(d) < first + MarchYearLength(MarchYear(d))
  {
  }

  lemma FirstsOfMarchIncrease(p: int, q: int)
    requires p <= q
    ensures DaysFromCivil(Date(p, 3, 1)) <= DaysFromCivil(Date(q, 3, 1))
  {
  }

  // ---- Main results ----

  lemma OrdinalsAreInjective(a: Date, b: Date)
    requires IsCivil(a) && IsCivil(b) && DaysFromCivil(a) == DaysFromCivil(b)
    ensures a == b
  {
    OrderIsOrdinalOrder(a, b);
    OrderIsOrdinalOrder(b, a);
  }

  /** `days_from_civil` is undone by `civil_from_days` on every civil day of every 32-bit year. */
  lemma CivilRoundTrip(d: Date)
    requires IsCivil(d) && I32_MIN <= d.year <= I32_MAX
    ensures CivilFromDays(DaysFromCivil(d)) == d
  {
    WideDaysRoundTrip(DaysFromCivil(d));
    OrdinalsAreInjective(WideCivilFromDays(DaysFromCivil(d)), d);
  }

  /** `civil_from_days` is undone by `days_from_civil`, on the ordinals of all days of 32-bit years
      and on no other: beyond them the year is clamped. */
  lemma DaysRoundTrip(days: int)
    ensures var first, last := DaysFromCivil(Date(I32_MIN, 1, 1)), DaysFromCivil(Date(I32_MAX, 12, 31));
      var civil := CivilFromDays(days);
      && IsCivil(civil.(year := WideCivilFromDays(days).year))
      && (first <= days <= last <==> DaysFromCivil(civil) == days && civil == WideCivilFromDays(days))
      && (first <= days <= last ==> IsCivil(civil))
  {
    hide WideCivilFromDays;
    WideDaysRoundTrip(days);
    var wide := WideCivilFromDays(days);
    OrderIsOrdinalOrder(wide, Date(I32_MIN, 1, 1));
    OrderIsOrdinalOrder(Date(I32_MAX, 12, 31), wide);
  }

  /** The civil day a date value stands for: itself, unless its parts name no day of the calendar.
      Such values come from deserialisation, which does not validate. */
  function Denoted(d: Date): Date { WideCivilFromDays(DaysFromCivil(d)) }

  lemma DenotedIsCivil(d: Date)
    ensures IsCivil(Denoted(d)) && DaysFromCivil(Denoted(d)) == DaysFromCivil(d)
    ensures Denoted(d) == d <==> IsCivil(d)
  {
    hide DaysFromCivil, WideCivilFromDays, IsCivil;
    WideDaysRoundTrip(DaysFromCivil(d));
    if IsCivil(d) { OrdinalsAreInjective(Denoted(d), d); }
  }

  /** A value that is no date, and the day it stands for. */
  lemma InvalidDateIsAnotherDay()
    ensures !IsCivil(Date(2023, 2, 30)) && Denoted(Date(2023, 2, 30)) == Date(2023, 3, 2)
  {
    var value, day := Date(2023, 2, 30), Date(2023, 3, 2);
    assert IsCivil(day) && DaysFromCivil(value) == DaysFromCivil(day);
    hide DaysFromCivil, WideCivilFromDays;
    DenotedIsCivil(value);
    OrdinalsAreInjective(Denoted(value), day);
  }

  /** Addition of days is that many single steps of the calendar, and fails exactly when the steps
      end outside years 1 to 9999; the steps may pass through any year. For every date value. */
  lemma CheckedAddDaysIsWalk(d: Date, days: int)
    ensures var end := Walk(Denoted(d), days);
      IsCivil(end) && CheckedAddDays(d, days) == if InYearRange(end.year) then Ok(end) else Err(InvalidInput)
  {
    hide Walk, DaysFromCivil, WideCivilFromDays, DaysInMonth, Denoted;
    DenotedIsCivil(d);
    WalkOrdinal(Denoted(d), days);
    WideDaysRoundTrip(DaysFromCivil(d) + days);
    OrdinalsAreInjective(WideCivilFromDays(DaysFromCivil(d) + days), Walk(Denoted(d), days));
  }

  lemma WalksCompose(d: Date, m: int, n: int)
    requires IsCivil(d)
    ensures Walk(Walk(d, m), n) == Walk(d, m + n)
  {
    hide Walk, DaysFromCivil, DaysInMonth;
    WalkOrdinal(d, m);
    WalkOrdinal(d, m + n);
    WalkOrdinal(Walk(d, m), n);
    OrdinalsAreInjective(Walk(Walk(d, m), n), Walk(d, m + n));
  }

  /** Successful additions compose, forwards and backwards: only the sum matters. */
  lemma AdditionsCompose(d: Date, m: int, n: int)
    requires IsDate(d) && I32_MIN <= m <= I32_MAX && I32_MIN <= n <= I32_MAX && I32_MIN <= m + n <= I32_MAX
    requires CheckedAddDays(d, m).Ok?
    ensures CheckedAddDays(CheckedAddDays(d, m).value, n) == CheckedAddDays(d, m + n)
  {
    hide CheckedAddDays, Walk, Denoted;
    DenotedIsCivil(d);
    DenotedIsCivil(Walk(d, m));
    CheckedAddDaysIsWalk(d, m);
    CheckedAddDaysIsWalk(d, m + n);
    CheckedAddDaysIsWalk(Walk(d, m), n);
    WalksCompose(d, m, n);
  }
}
