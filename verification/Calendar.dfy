/** Two ways from Unix time to a calendar date, and the day count both must invert. */
module Calendar {
  import opened Bytes

  // -- The reference: counting days in the proleptic Gregorian calendar --------------

  predicate Leap(y: nat) { (y % 4 == 0 && y % 100 != 0) || y % 400 == 0 }

  function YearLength(y: nat): (n: nat)
    ensures 365 <= n <= 366
  {
    if Leap(y) then 366 else 365
  }

  function MonthLength(y: nat, m: nat): nat {
    if m == 2 then (if Leap(y) then 29 else 28) else if m in {4, 6, 9, 11} then 30 else 31
  }

  /** Days from 1 January of year 0 to 1 January of year `y`: one more for every fourth year, not for every hundredth,
      but for every four-hundredth. */
  function DaysBeforeYear(y: nat): int { 365 * y + (y + 3) / 4 - (y + 99) / 100 + (y + 399) / 400 }

  /** Days in the months before month `m` of year `y`. */
  function DaysBeforeMonth(y: nat, m: nat): nat {
    if m <= 1 then 0 else DaysBeforeMonth(y, m - 1) + MonthLength(y, m - 1)
  }

  datatype Date = Date(year: nat, month: nat, day: nat)

  predicate Valid(d: Date) { 1 <= d.month <= 12 && 1 <= d.day <= MonthLength(d.year, d.month) }

  function DayNumber(d: Date): int { DaysBeforeYear(d.year) + DaysBeforeMonth(d.year, d.month) + d.day - 1 }

  /** The day number of 1 January 1970. */
  const EPOCH := 719528

  lemma YearsAddUp(y: nat)
    ensures DaysBeforeYear(y + 1) == DaysBeforeYear(y) + YearLength(y)
  {
    EveryFour(y);
    EveryHundred(y);
    EveryFourHundred(y);
    Divisors(y);
  }

  lemma EveryFour(y: nat)
    ensures (y + 4) / 4 == (y + 3) / 4 + (if y % 4 == 0 then 1 else 0)
  {
  }

  lemma EveryHundred(y: nat)
    ensures (y + 100) / 100 == (y + 99) / 100 + (if y % 100 == 0 then 1 else 0)
  {
  }

  lemma EveryFourHundred(y: nat)
    ensures (y + 400) / 400 == (y + 399) / 400 + (if y % 400 == 0 then 1 else 0)
  {
  }

  lemma Divisors(y: nat)
    ensures (y % 100 == 0 ==> y % 4 == 0) && (y % 400 == 0 ==> y % 100 == 0)
  {
    if y % 100 == 0 {
      Multiples(25 * (y / 100));
      assert y == 4 * (25 * (y / 100));
    }
    if y % 400 == 0 {
      Multiples(4 * (y / 400));
      assert y == 100 * (4 * (y / 400));
    }
  }

  lemma Multiples(k: nat)
    ensures 4 * k % 4 == 0 && 100 * k % 100 == 0
  {
  }

  lemma {:induction false} YearsGrow(y: nat, z: nat)
    requires y <= z
    ensures DaysBeforeYear(y) + 365 * (z - y) <= DaysBeforeYear(z)
    decreases z - y
  {
    hide DaysBeforeYear;
    if y < z {
      YearsAddUp(y);
      YearsGrow(y + 1, z);
    }
  }

  function CommonDaysBefore(m: nat): nat
    requires 1 <= m <= 12
  {
    [0, 31, 59, 90, 120, 151, 181, 212, 243, 273, 304, 334][m - 1]
  }

  lemma MonthsOfYear(y: nat)
    ensures forall m :: 1 <= m <= 12 ==>
              DaysBeforeMonth(y, m) == CommonDaysBefore(m) + (if m > 2 && Leap(y) then 1 else 0)
  {
    hide Leap;
    assert DaysBeforeMonth(y, 1) == 0;
    assert DaysBeforeMonth(y, 2) == 31;
    assert DaysBeforeMonth(y, 3) == 59 + (if Leap(y) then 1 else 0);
    assert DaysBeforeMonth(y, 4) == 90 + (if Leap(y) then 1 else 0);
    assert DaysBeforeMonth(y, 5) == 120 + (if Leap(y) then 1 else 0);
    assert DaysBeforeMonth(y, 6) == 151 + (if Leap(y) then 1 else 0);
    assert DaysBeforeMonth(y, 7) == 181 + (if Leap(y) then 1 else 0);
    assert DaysBeforeMonth(y, 8) == 212 + (if Leap(y) then 1 else 0);
    assert DaysBeforeMonth(y, 9) == 243 + (if Leap(y) then 1 else 0);
    assert DaysBeforeMonth(y, 10) == 273 + (if Leap(y) then 1 else 0);
    assert DaysBeforeMonth(y, 11) == 304 + (if Leap(y) then 1 else 0);
  }

  lemma WithinYear(d: Date)
    requires Valid(d)
    ensures DaysBeforeYear(d.year) <= DayNumber(d) < DaysBeforeYear(d.year + 1)
  {
    hide DaysBeforeYear;
    MonthsOfYear(d.year);
    YearsAddUp(d.year);
  }

  lemma {:induction false} MonthsGrow(y: nat, m: nat, n: nat)
    requires 1 <= m < n
    ensures DaysBeforeMonth(y, m) + MonthLength(y, m) <= DaysBeforeMonth(y, n)
  {
    if m + 1 < n {
      MonthsGrow(y, m, n - 1);
    }
  }

  /** A day number belongs to one date only. */
  lemma DatesAreUnique(d: Date, e: Date)
    requires Valid(d) && Valid(e) && DayNumber(d) == DayNumber(e)
    ensures d == e
  {
    hide DaysBeforeYear, DaysBeforeMonth, MonthLength;
    WithinYear(d);
    WithinYear(e);
    if d.year < e.year {
      YearsGrow(d.year + 1, e.year);
    } else if e.year < d.year {
      YearsGrow(e.year + 1, d.year);
    } else if d.month < e.month {
      MonthsGrow(d.year, d.month, e.month);
    } else if e.month < d.month {
      MonthsGrow(d.year, e.month, d.month);
    }
  }

  // -- The subtracting loops -----------------------------------------------------------

  /** Takes off whole years; the year is a 16-bit counter. */
  function YearLoop(year: u16, d: nat): (r: (u16, nat))
    ensures r.1 < YearLength(r.0)
    decreases d
  {
    if d < YearLength(year) then (year, d) else YearLoop(Low16(year + 1), d - YearLength(year))
  }

  function MonthLoop(year: nat, month: nat, d: nat): (nat, nat)
    decreases 13 - month
  {
    if month > 12 || d < MonthLength(year, month) then (month, d)
    else MonthLoop(year, month + 1, d - MonthLength(year, month))
  }

  function LoopDate(days: nat): Date {
    var (year, d) := YearLoop(1970, days);
    var (month, rest) := MonthLoop(year, 1, d);
    Date(year, month, rest + 1)
  }

  method TakeYears(days: nat) returns (year: u16, d: nat)
    ensures (year, d) == YearLoop(1970, days)
  {
    year, d := 1970, days;
    while true
      invariant YearLoop(year, d) == YearLoop(1970, days)
      decreases d
    {
      var daysInYear := if (year % 4 == 0 && year % 100 != 0) || year % 400 == 0 then 366 else 365;
      if d < daysInYear {
        break;
      }
      d := d - daysInYear;
      year := Low16(year + 1);
    }
  }

  method TakeMonths(year: u16, dayOfYear: nat) returns (month: nat, d: nat)
    ensures (month, d) == MonthLoop(year, 1, dayOfYear)
  {
    hide Leap;
    var daysPerMonth := [31, if Leap(year) then 29 else 28, 31, 30, 31, 30, 31, 31, 30, 31, 30, 31];
    month, d := 1, dayOfYear;
    for i := 0 to 12
      invariant month == i + 1
      invariant MonthLoop(year, month, d) == MonthLoop(year, 1, dayOfYear)
    {
      assert daysPerMonth[i] == MonthLength(year, i + 1);
      if d < daysPerMonth[i] {
        break;
      }
      d := d - daysPerMonth[i];
      month := month + 1;
    }
  }

  method DateByLoops(days: nat) returns (date: Date)
    ensures date == LoopDate(days)
  {
    var year, dayOfYear := TakeYears(days);
    var month, d := TakeMonths(year, dayOfYear);
    date := Date(year, month, d + 1);
  }

  lemma {:induction false} YearLoopCounts(year: u16, d: nat)
    requires DaysBeforeYear(year) + d < DaysBeforeYear(0x1_0000)
    ensures var (y, rest) := YearLoop(year, d); DaysBeforeYear(y) + rest == DaysBeforeYear(year) + d
    decreases d
  {
    hide DaysBeforeYear, YearLength;
    if d >= YearLength(year) {
      YearsAddUp(year);
      if year == 0xFFFF {
        assert false;
      }
      YearLoopCounts(year + 1, d - YearLength(year));
    }
  }

  lemma {:induction false} MonthLoopCounts(year: nat, month: nat, d: nat)
    requires 1 <= month <= 12 && DaysBeforeMonth(year, month) + d < YearLength(year)
    ensures var (m, rest) := MonthLoop(year, month, d);
            && 1 <= m <= 12 && rest < MonthLength(year, m)
            && DaysBeforeMonth(year, m) + rest == DaysBeforeMonth(year, month) + d
    decreases 12 - month
  {
    hide YearLength;
    if d >= MonthLength(year, month) {
      if month == 12 {
        LastMonth(year);
        assert false;
      }
      MonthLoopCounts(year, month + 1, d - MonthLength(year, month));
    }
  }

  lemma LastMonth(year: nat)
    ensures DaysBeforeMonth(year, 12) + MonthLength(year, 12) == YearLength(year)
  {
    MonthsOfYear(year);
  }

  lemma EpochIsDayNumber()
    ensures DaysBeforeYear(1970) == EPOCH
  {
  }

  /** Even where the year counter wraps, the loops end on a date that exists. */
  lemma LoopDateIsValid(days: nat)
    ensures Valid(LoopDate(days)) && LoopDate(days).year < 0x1_0000
  {
    hide YearLength, MonthLength;
    var (year, d) := YearLoop(1970, days);
    assert DaysBeforeMonth(year, 1) == 0;
    MonthLoopCounts(year, 1, d);
  }

  /** Up to the end of year 65535 the loops find the date whose day number is asked for. */
  lemma LoopsInvertDayNumber(days: nat)
    requires EPOCH + days < DaysBeforeYear(0x1_0000)
    ensures Valid(LoopDate(days)) && DayNumber(LoopDate(days)) == EPOCH + days
  {
    hide DaysBeforeYear, YearLength, MonthLength;
    EpochIsDayNumber();
    YearLoopCounts(1970, days);
    var (year, d) := YearLoop(1970, days);
    assert DaysBeforeMonth(year, 1) == 0;
    MonthLoopCounts(year, 1, d);
  }

  // -- The closed form -------------------------------------------------------------------

  /** The year, from March to February, that day `doe` of a 400-year era falls into. */
  function YearOfEra(doe: nat): int { (doe - doe / 1460 + doe / 36524 - doe / 146096) / 365 }

  function YearStart(yoe: int): int { 365 * yoe + yoe / 4 - yoe / 100 }

  /** The month, counted from March, that day `doy` of such a year falls into. */
  function MonthFromMarch(doy: int): int { (5 * doy + 2) / 153 }

  function MonthStart(mp: int): int { (153 * mp + 2) / 5 }

  function CivilDate(days: nat): Date {
    var z := days + 719468;
    var era := z / 146097;
    var doe := z % 146097;
    var yoe := YearOfEra(doe);
    var doy := doe - YearStart(yoe);
    var mp := MonthFromMarch(doy);
    EraSplits(doe);
    YearSplits(doy);
    var m := if mp < 10 then mp + 3 else mp - 9;
    Date(if m <= 2 then yoe + era * 400 + 1 else yoe + era * 400, m, doy - MonthStart(mp) + 1)
  }

  /** A day of an era by centuries, groups of four years, years and days. */
  lemma YearFormula(c: nat, q: nat, r: nat, t: nat)
    requires c <= 3 && q <= 24 && r <= 3 && t <= 365
    requires t == 365 ==> r == 3 && (q == 24 ==> c == 3)
    ensures var doe := 36524 * c + 1461 * q + 365 * r + t;
            YearOfEra(doe) == 100 * c + 4 * q + r
  {
    var doe := 36524 * c + 1461 * q + 365 * r + t;
    var k := 100 * c + 4 * q + r;
    var surplus := 24 * c + q + 365 * r + t;
    var e := if surplus >= 1460 then 1 else 0;
    assert doe == 1460 * (25 * c + q + e) + (surplus - 1460 * e);
    assert doe / 1460 == 25 * c + q + e;
    assert doe / 36524 - doe / 146096 == c;
    assert doe - doe / 1460 + doe / 36524 - doe / 146096 == 365 * k + (t - e);
  }

  lemma YearStartFormula(c: nat, q: nat, r: nat)
    requires c <= 3 && q <= 24 && r <= 3
    ensures YearStart(100 * c + 4 * q + r) == 36524 * c + 1461 * q + 365 * r
  {
    var k := 100 * c + 4 * q + r;
    assert k / 4 == 25 * c + q && k / 100 == c;
  }

  /** Every day of an era lies in the year the formula names; only a leap year has a 366th day. */
  lemma EraSplits(doe: nat)
    requires doe < 146097
    ensures var yoe := YearOfEra(doe);
            0 <= yoe < 400 && 0 <= doe - YearStart(yoe) <= 365 && (doe - YearStart(yoe) == 365 ==> Leap(yoe + 1))
  {
    var c := if doe / 36524 == 4 then 3 else doe / 36524;
    var q := (doe - 36524 * c) / 1461;
    var left := doe - 36524 * c - 1461 * q;
    var r := if left / 365 == 4 then 3 else left / 365;
    var t := left - 365 * r;
    YearFormula(c, q, r, t);
    YearStartFormula(c, q, r);
    if t == 365 {
      assert 100 * c + 4 * q + r + 1 == 4 * (25 * c + q + 1);
      LastDayIsLeap(c, q);
    }
  }

  lemma LastDayIsLeap(c: nat, q: nat)
    requires c <= 3 && q <= 24 && (q == 24 ==> c == 3)
    ensures Leap(100 * c + 4 * q + 4)
  {
  }

  lemma YearSplits(doy: int)
    requires 0 <= doy <= 365
    ensures var mp := MonthFromMarch(doy);
            && 0 <= mp <= 11 && MonthStart(mp) <= doy
            && doy - MonthStart(mp) < [31, 30, 31, 30, 31, 31, 30, 31, 30, 31, 31, 29][mp]
            && MonthStart(mp) == [0, 31, 61, 92, 122, 153, 184, 214, 245, 275, 306, 337][mp]
  {
  }

  lemma EraStart(era: nat, yoe: nat)
    requires yoe < 400
    ensures DaysBeforeYear(yoe + era * 400 + 1) == 146097 * era + YearStart(yoe) + 366
    ensures Leap(yoe + era * 400 + 1) <==> Leap(yoe + 1)
  {
    FourYears(era, yoe);
    Centuries(era, yoe);
    Eras(era, yoe);
  }

  lemma FourYears(era: nat, yoe: nat)
    ensures (yoe + era * 400 + 4) / 4 == 100 * era + yoe / 4 + 1 && (yoe + era * 400 + 1) % 4 == (yoe + 1) % 4
  {
  }

  lemma Centuries(era: nat, yoe: nat)
    ensures (yoe + era * 400 + 100) / 100 == 4 * era + yoe / 100 + 1
    ensures (yoe + era * 400 + 1) % 100 == (yoe + 1) % 100
  {
  }

  lemma Eras(era: nat, yoe: nat)
    requires yoe < 400
    ensures (yoe + era * 400 + 400) / 400 == era + 1 && (yoe + era * 400 + 1) % 400 == (yoe + 1) % 400
  {
  }

  /** The closed form finds the date of every day from 1970 on, with no upper bound. */
  lemma ClosedFormInvertsDayNumber(days: nat)
    ensures Valid(CivilDate(days)) && DayNumber(CivilDate(days)) == EPOCH + days
  {
    hide YearOfEra, YearStart, MonthFromMarch, MonthStart, DaysBeforeYear, DaysBeforeMonth, Leap;
    var z := days + 719468;
    var era, doe := z / 146097, z % 146097;
    var yoe := YearOfEra(doe);
    var doy := doe - YearStart(yoe);
    EraSplits(doe);
    YearSplits(doy);
    EraStart(era, yoe);
    var y := yoe + era * 400;
    YearsAddUp(y);
    MonthsOfYear(y);
    MonthsOfYear(y + 1);
    if MonthFromMarch(doy) == 11 && doy == 365 {
      assert Leap(y + 1);
    }
  }

  // -- Both together ---------------------------------------------------------------------

  /** The two algorithms agree on exactly the days up to the end of year 65535. */
  lemma SameDate(days: nat)
    ensures LoopDate(days) == CivilDate(days) <==> EPOCH + days < DaysBeforeYear(0x1_0000)
  {
    hide DaysBeforeYear, DaysBeforeMonth, CivilDate;
    ClosedFormInvertsDayNumber(days);
    if EPOCH + days < DaysBeforeYear(0x1_0000) {
      LoopsInvertDayNumber(days);
      DatesAreUnique(LoopDate(days), CivilDate(days));
    } else {
      WithinYear(CivilDate(days));
      if CivilDate(days).year < 0x1_0000 {
        YearsGrow(CivilDate(days).year + 1, 0x1_0000);
      }
      assert LoopDate(days).year < 0x1_0000;
    }
  }

  datatype DateTime = DateTime(date: Date, hour: nat, minute: nat, second: nat)

  /** Unix seconds as the set-clock call splits them. */
  function LoopDateTime(secs: nat): DateTime {
    DateTime(LoopDate(secs / 86400), secs / 3600 % 24, secs / 60 % 60, secs % 60)
  }

  /** Unix seconds as the watch command splits them. */
  function CivilDateTime(secs: nat): DateTime {
    var mins := secs / 60;
    var hours := mins / 60;
    DateTime(CivilDate(hours / 24), hours % 24, mins % 60, secs % 60)
  }

  lemma SameTime(secs: nat)
    ensures LoopDateTime(secs) == CivilDateTime(secs) <==> EPOCH + secs / 86400 < DaysBeforeYear(0x1_0000)
  {
    hide LoopDate, CivilDate, DaysBeforeYear;
    Nested(secs);
    SameDate(secs / 86400);
  }

  /** Both give the time of day that the seconds add up to. */
  lemma TimeOfDay(secs: nat)
    ensures var t := LoopDateTime(secs);
            && t.hour < 24 && t.minute < 60 && t.second < 60 && t.hour * 3600 + t.minute * 60 + t.second == secs % 86400
            && t.hour == CivilDateTime(secs).hour && t.minute == CivilDateTime(secs).minute
            && t.second == CivilDateTime(secs).second
  {
    hide LoopDate, CivilDate;
    var mins := secs / 60;
    var hours := mins / 60;
    Nested(secs);
    assert secs == 60 * mins + secs % 60 && mins == 60 * hours + mins % 60 && hours == 24 * (hours / 24) + hours % 24;
    assert secs == 86400 * (secs / 86400) + secs % 86400;
  }

  lemma Nested(secs: nat)
    ensures secs / 60 / 60 == secs / 3600 && secs / 3600 / 24 == secs / 86400
  {
  }
}
