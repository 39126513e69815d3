/**
 * The calendar arithmetic the date grouping takes from date-fns, on local
 * time. An instant is a number of milliseconds (JavaScript's `getTime()`),
 * read in one fixed time zone; a day is the number of whole days since
 * 1970-01-01, which was a Thursday. Years and months follow the proleptic
 * Gregorian calendar.
 */
module Calendar {

  const MsPerDay: int := 86400000

  /** The day an instant falls on (date-fns `startOfDay`, as a day number). */
  function DayOf(t: int): int {
    t / MsPerDay
  }

  /** The first millisecond of a day. */
  function StartOfDay(day: int): int {
    day * MsPerDay
  }

  /** The last millisecond of a day (23:59:59.999). */
  function EndOfDay(day: int): int {
    day * MsPerDay + MsPerDay - 1
  }

  /** An instant lies between the start and the end of its own day, and only of that day. */
  lemma DayOfWithin(t: int, day: int)
    ensures DayOf(t) == day <==> StartOfDay(day) <= t <= EndOfDay(day)
  {
  }

  /** An instant lies between the start of day `first` and the end of day `last` exactly when its day does. */
  lemma DayOfBetween(t: int, first: int, last: int)
    ensures StartOfDay(first) <= t <= EndOfDay(last) <==> first <= DayOf(t) <= last
  {
    DayOfWithin(t, DayOf(t));
  }

  /** Days since the most recent Monday: 0 on Monday, 6 on Sunday. */
  function DaysSinceMonday(day: int): (w: int)
    ensures 0 <= w < 7
  {
    (day + 3) % 7
  }

  /** The Monday that starts the week of `day` (date-fns `startOfWeek` with `weekStartsOn: 1`). */
  function StartOfWeek(day: int): (monday: int)
    ensures monday <= day < monday + 7
    ensures DaysSinceMonday(monday) == 0
  {
    day - DaysSinceMonday(day)
  }

  /** A calendar month: `month` runs from 1 (January) to 12 (December). */
  datatype YearMonth = YearMonth(year: int, month: int)

  predicate ValidMonth(ym: YearMonth) {
    1 <= ym.month <= 12
  }

  predicate IsLeapYear(year: int) {
    year % 4 == 0 && (year % 100 != 0 || year % 400 == 0)
  }

  function DaysInMonth(ym: YearMonth): (n: int)
    requires ValidMonth(ym)
    ensures 28 <= n <= 31
  {
    if ym.month == 2 then (if IsLeapYear(ym.year) then 29 else 28)
    else if ym.month in {4, 6, 9, 11} then 30
    else 31
  }

  /** The month before `ym` (what `subMonths(d, 1)` moves the month of `d` to). */
  function PrevMonth(ym: YearMonth): (p: YearMonth)
    requires ValidMonth(ym)
    ensures ValidMonth(p)
    ensures ym.month == 1 ==> p == YearMonth(ym.year - 1, 12)
    ensures ym.month > 1 ==> p == YearMonth(ym.year, ym.month - 1)
  {
    if ym.month == 1 then YearMonth(ym.year - 1, 12) else YearMonth(ym.year, ym.month - 1)
  }

  /**
   * The day number of day `d` of month `ym`: the days-from-civil count, which
   * starts the year in March so that the leap day comes last.
   */
  function DayNumber(ym: YearMonth, d: int): int
    requires ValidMonth(ym)
  {
    var y := if ym.month <= 2 then ym.year - 1 else ym.year;
    var mp := if ym.month > 2 then ym.month - 3 else ym.month + 9;
    var doy := MonthStart(mp) + d - 1;
    365 * y + y / 4 - y / 100 + y / 400 + doy - 719468
  }

  /** The first day of year `yoe` (0 to 399) of a 400-year era, counted from the era's first March 1. */
  function YearStart(yoe: int): int {
    365 * yoe + yoe / 4 - yoe / 100
  }

  /** The year of the era that day `doe` (0 to 146096) of a 400-year era falls in. */
  function YearOfEra(doe: int): int {
    (doe - doe / 1460 + doe / 36524 - doe / 146096) / 365
  }

  /** The first day of month `mp` (0 is March) of a March-based year. */
  function MonthStart(mp: int): int {
    (153 * mp + 2) / 5
  }

  /** The month a day of year `yoe` of an era falls in, given the day of that year (what `MonthOf` computes last). */
  function CivilMonth(era: int, yoe: int, doy: int): (ym: YearMonth)
    requires 0 <= doy < 366
    ensures ValidMonth(ym)
  {
    var mp := (5 * doy + 2) / 153;
    var m := if mp < 10 then mp + 3 else mp - 9;
    YearMonth(if m <= 2 then yoe + era * 400 + 1 else yoe + era * 400, m)
  }

  /** The month a day falls in (date-fns `getFullYear`/`getMonth`): the civil-from-days count. */
  function MonthOf(day: int): (ym: YearMonth)
    ensures ValidMonth(ym)
  {
    var z := day + 719468;
    var era := z / 146097;
    var doe := z - era * 146097;
    var yoe := YearOfEra(doe);
    YearOfEraBackward(doe);
    CivilMonth(era, yoe, doe - YearStart(yoe))
  }

  /** Going back seven days goes back exactly one week. */
  lemma StartOfWeekShift(day: int)
    ensures StartOfWeek(day - 7) == StartOfWeek(day) - 7
  {
    assert DaysSinceMonday(day - 7) == DaysSinceMonday(day);
  }

  /** The week that starts on Monday `monday` is exactly the days `monday` to `monday + 6`. */
  lemma StartOfWeekIs(day: int, monday: int)
    requires DaysSinceMonday(monday) == 0
    ensures StartOfWeek(day) == monday <==> monday <= day <= monday + 6
  {
    if monday <= day <= monday + 6 {
      assert DaysSinceMonday(day) == day - monday;
    }
  }

  /** The number of days in the March-based year that ends with February of `year`. */
  lemma YearLength(year: int)
    ensures (365 * year + year / 4 - year / 100 + year / 400)
          - (365 * (year - 1) + (year - 1) / 4 - (year - 1) / 100 + (year - 1) / 400)
         == if IsLeapYear(year) then 366 else 365
  {
    CountStep(year, 4);
    CountStep(year, 100);
    CountStep(year, 400);
    MultipleOf400(year);
  }

  /** Moving from `year - 1` to `year` adds one multiple of `k` exactly when `year` is one. */
  lemma CountStep(year: int, k: int)
    requires k > 0
    ensures year / k - (year - 1) / k == if year % k == 0 then 1 else 0
  {
    var q, r := year / k, year % k;
    if r == 0 {
      DivUnique(year - 1, k, q - 1, k - 1);
    } else {
      DivUnique(year - 1, k, q, r - 1);
    }
  }

  /** The quotient and remainder of Euclidean division are the only ones. */
  lemma DivUnique(n: int, k: int, q: int, r: int)
    requires k > 0 && 0 <= r < k && n == k * q + r
    ensures n / k == q && n % k == r
  {
    var q', r' := n / k, n % k;
    assert n == k * q' + r';
    if q > q' {
      assert k * q == k * q' + k * (q - q');
      AtLeastOnce(k, q - q');
    } else if q < q' {
      assert k * q' == k * q + k * (q' - q);
      AtLeastOnce(k, q' - q);
    }
  }

  /** A positive number taken at least once is at least itself. */
  lemma {:induction false} AtLeastOnce(k: int, d: int)
    requires k > 0 && d >= 1
    ensures k * d >= k
    decreases d
  {
    if d > 1 {
      assert k * d == k * (d - 1) + k;
      AtLeastOnce(k, d - 1);
    }
  }

  /** A multiple of 400 is a multiple of 100 and of 4. */
  lemma MultipleOf400(year: int)
    ensures year % 400 == 0 ==> year % 100 == 0 && year % 4 == 0
  {
    if year % 400 == 0 {
      var m := year / 400;
      DivUnique(year, 100, 4 * m, 0);
      DivUnique(year, 4, 100 * m, 0);
    }
  }

  /** The last day of the previous month is the day right before the first of this month. */
  lemma MonthsAdjoin(ym: YearMonth)
    requires ValidMonth(ym)
    ensures DayNumber(PrevMonth(ym), DaysInMonth(PrevMonth(ym))) + 1 == DayNumber(ym, 1)
  {
    var p := PrevMonth(ym);
    if ym.month == 3 {
      YearLength(ym.year);
      assert DaysInMonth(p) == if IsLeapYear(ym.year) then 29 else 28;
    } else if ym.month == 1 {
      assert p == YearMonth(ym.year - 1, 12) && DaysInMonth(p) == 31;
    } else {
      MonthStartsWithinYear(ym);
    }
  }

  /** Within one March-based year, a month starts right after the previous month's length. */
  lemma MonthStartsWithinYear(ym: YearMonth)
    requires ValidMonth(ym) && ym.month != 1 && ym.month != 3
    ensures DayNumber(PrevMonth(ym), DaysInMonth(PrevMonth(ym))) + 1 == DayNumber(ym, 1)
  {
    var p := PrevMonth(ym);
    var mp := if ym.month > 2 then ym.month - 3 else ym.month + 9;
    assert p.year == ym.year && p.month == ym.month - 1;
    assert MonthStart(mp) - MonthStart(mp - 1) == DaysInMonth(p) by {
      MonthLengths(mp);
    }
  }

  /** The length of the month before month `mp` of the March-based year (March is 0). */
  lemma MonthLengths(mp: int)
    requires 1 <= mp <= 11
    ensures MonthStart(mp) - MonthStart(mp - 1)
         == [31, 30, 31, 30, 31, 31, 30, 31, 30, 31, 31][mp - 1]
  {
  }

  // ---------------------------------------------------------------------------
  // Days-from-civil and civil-from-days are inverse
  // ---------------------------------------------------------------------------

  /** The length of year `yoe` of an era, a March-based year whose February ends in year `yoe + 1`. */
  function EraYearLength(yoe: int): int {
    if IsLeapYear(yoe + 1) then 366 else 365
  }

  /** A year of the era in centuries, four-year cycles and years. */
  lemma EraYearDigits(yoe: int) returns (c: int, q: int, r: int)
    requires 0 <= yoe < 400
    ensures yoe == 100 * c + 4 * q + r && 0 <= c < 4 && 0 <= q < 25 && 0 <= r < 4
    ensures YearStart(yoe) == 36524 * c + 1461 * q + 365 * r
    ensures IsLeapYear(yoe + 1) <==> r == 3 && (q != 24 || c == 3)
  {
    c, q, r := yoe / 100, (yoe % 100) / 4, yoe % 4;
  }

  /** The year of the era is read back from a day given as centuries, cycles, years and day of year. */
  lemma YearOfEraDigits(c: int, q: int, r: int, doy: int)
    requires 0 <= c < 4 && 0 <= q < 25 && 0 <= r < 4 && 0 <= doy <= 365
    requires doy == 365 ==> r == 3 && (q != 24 || c == 3)
    ensures YearOfEra(36524 * c + 1461 * q + 365 * r + doy) == 100 * c + 4 * q + r
  {
    var doe := 36524 * c + 1461 * q + 365 * r + doy;
    var s := 24 * c + q + 365 * r + doy;
    var extra := if s >= 1460 then 1 else 0;
    assert doe / 1460 == 25 * c + q + extra by {
      DivUnique(doe, 1460, 25 * c + q + extra, s - 1460 * extra);
    }
    assert doe / 36524 - doe / 146096 == c by {
      if doe != 146096 {
        DivUnique(doe, 36524, c, doe - 36524 * c);
        DivUnique(doe, 146096, 0, doe);
      }
    }
    var yoe := 100 * c + 4 * q + r;
    DivUnique(365 * yoe + (doy - extra), 365, yoe, doy - extra);
  }

  /** A day of year `yoe` lies in year `yoe`, and the era is long enough to hold it. */
  lemma YearOfEraForward(yoe: int, doy: int)
    requires 0 <= yoe < 400 && 0 <= doy < EraYearLength(yoe)
    ensures YearOfEra(YearStart(yoe) + doy) == yoe
    ensures YearStart(yoe) + doy < 146097
  {
    var c, q, r := EraYearDigits(yoe);
    YearOfEraDigits(c, q, r, doy);
  }

  /** A day of an era as centuries, four-year cycles, years and a day of the year. */
  lemma EraDayDigits(doe: int) returns (c: int, q: int, r: int, doy: int)
    requires 0 <= doe < 146097
    ensures doe == 36524 * c + 1461 * q + 365 * r + doy
    ensures 0 <= c < 4 && 0 <= q < 25 && 0 <= r < 4 && 0 <= doy <= 365
    ensures doy == 365 ==> r == 3 && (q != 24 || c == 3)
  {
    c := if doe / 36524 < 3 then doe / 36524 else 3;
    var rest := doe - 36524 * c;
    q := rest / 1461;
    var rest' := rest - 1461 * q;
    r := if rest' / 365 < 3 then rest' / 365 else 3;
    doy := rest' - 365 * r;
  }

  /** Every day of an era lies in the year `YearOfEra` names, within that year's length. */
  lemma YearOfEraBackward(doe: int)
    requires 0 <= doe < 146097
    ensures 0 <= YearOfEra(doe) < 400
    ensures 0 <= doe - YearStart(YearOfEra(doe)) < EraYearLength(YearOfEra(doe))
  {
    var c, q, r, doy := EraDayDigits(doe);
    YearOfEraDigits(c, q, r, doy);
    var c', q', r' := EraYearDigits(100 * c + 4 * q + r);
    assert c' == c && q' == q && r' == r;
  }

  /** The sum `DayNumber` builds from a year splits into whole eras and a year of the era. */
  lemma EraSplit(y: int)
    ensures 365 * y + y / 4 - y / 100 + y / 400 == 146097 * (y / 400) + YearStart(y % 400)
    ensures IsLeapYear(y + 1) <==> IsLeapYear(y % 400 + 1)
  {
    var e, r := y / 400, y % 400;
    DivUnique(y, 4, 100 * e + r / 4, r % 4);
    DivUnique(y, 100, 4 * e + r / 100, r % 100);
    DivUnique(y + 1, 4, 100 * e + (r + 1) / 4, (r + 1) % 4);
    DivUnique(y + 1, 100, 4 * e + (r + 1) / 100, (r + 1) % 100);
    DivUnique(y + 1, 400, e + (r + 1) / 400, (r + 1) % 400);
  }

  /** Day `dd` (from 0) of month `mp` is read back as month `mp`. */
  lemma MonthOfYearForward(mp: int, dd: int)
    requires 0 <= mp < 12 && 0 <= dd
    requires mp < 11 ==> MonthStart(mp) + dd < MonthStart(mp + 1)
    requires mp == 11 ==> dd < 29
    ensures (5 * (MonthStart(mp) + dd) + 2) / 153 == mp
  {
  }

  /** Every day of a March-based year lies in the month `(5 * doy + 2) / 153` names. */
  lemma MonthOfYearBackward(doy: int)
    requires 0 <= doy < 366
    ensures var mp := (5 * doy + 2) / 153;
      && 0 <= mp < 12 && MonthStart(mp) <= doy
      && (mp < 11 ==> doy < MonthStart(mp + 1))
  {
  }

  /** Outside February, a month's length is the distance to the next month's start. */
  lemma MonthLengthIs(ym: YearMonth)
    requires ValidMonth(ym) && ym.month != 2
    ensures var mp := if ym.month > 2 then ym.month - 3 else ym.month + 9;
      mp < 11 && DaysInMonth(ym) == MonthStart(mp + 1) - MonthStart(mp)
  {
    var mp := if ym.month > 2 then ym.month - 3 else ym.month + 9;
    MonthLengths(mp + 1);
  }

  /** `MonthOf` of a day given as an era, a year of the era and a day of that year. */
  lemma MonthOfParts(day: int, era: int, yoe: int, doy: int)
    requires day + 719468 == 146097 * era + YearStart(yoe) + doy
    requires 0 <= yoe < 400 && 0 <= doy < EraYearLength(yoe)
    ensures MonthOf(day) == CivilMonth(era, yoe, doy)
  {
    YearOfEraForward(yoe, doy);
    DivUnique(day + 719468, 146097, era, YearStart(yoe) + doy);
  }

  /** `DayNumber` taken apart into an era, a year of the era and a day of that year, from which the month is read back. */
  lemma DayNumberParts(ym: YearMonth, d: int) returns (e: int, r: int, doy: int)
    requires ValidMonth(ym) && 1 <= d <= DaysInMonth(ym)
    ensures DayNumber(ym, d) + 719468 == 146097 * e + YearStart(r) + doy
    ensures 0 <= r < 400 && 0 <= doy < EraYearLength(r)
    ensures CivilMonth(e, r, doy) == ym
  {
    var y := if ym.month <= 2 then ym.year - 1 else ym.year;
    var mp := if ym.month > 2 then ym.month - 3 else ym.month + 9;
    doy := MonthStart(mp) + d - 1;
    e, r := y / 400, y % 400;
    if ym.month != 2 {
      MonthLengthIs(ym);
    }
    MonthOfYearForward(mp, d - 1);
    EraSplit(y);
  }

  /** Civil-from-days undoes days-from-civil: day `d` of month `ym` lies in month `ym`. */
  lemma MonthOfDayNumber(ym: YearMonth, d: int)
    requires ValidMonth(ym) && 1 <= d <= DaysInMonth(ym)
    ensures MonthOf(DayNumber(ym, d)) == ym
  {
    var e, r, doy := DayNumberParts(ym, d);
    MonthOfParts(DayNumber(ym, d), e, r, doy);
  }

  /** `MonthOf` taken apart: the era, the year of the era and the day of that year. */
  lemma MonthOfUnfold(day: int) returns (era: int, yoe: int, doy: int)
    ensures day + 719468 == 146097 * era + YearStart(yoe) + doy
    ensures 0 <= yoe < 400 && 0 <= doy < EraYearLength(yoe)
    ensures MonthOf(day) == CivilMonth(era, yoe, doy)
  {
    var z := day + 719468;
    era := z / 146097;
    var doe := z - era * 146097;
    YearOfEraBackward(doe);
    yoe := YearOfEra(doe);
    doy := doe - YearStart(yoe);
  }

  /** Day `doy` of year `yoe` of an era is a day of the month `CivilMonth` names, and `DayNumber` gives it back. */
  lemma CivilMonthInverse(era: int, yoe: int, doy: int) returns (d: int)
    requires 0 <= yoe < 400 && 0 <= doy < EraYearLength(yoe)
    ensures 1 <= d <= DaysInMonth(CivilMonth(era, yoe, doy))
    ensures DayNumber(CivilMonth(era, yoe, doy), d) == 146097 * era + YearStart(yoe) + doy - 719468
  {
    var ym := CivilMonth(era, yoe, doy);
    MonthOfYearBackward(doy);
    var mp := (5 * doy + 2) / 153;
    d := doy - MonthStart(mp) + 1;
    var y := yoe + era * 400;
    DivUnique(y, 400, era, yoe);
    assert d <= DaysInMonth(ym) by {
      if ym.month != 2 {
        MonthLengthIs(ym);
      } else {
        EraSplit(y);
      }
    }
    assert DayNumber(ym, d) == 146097 * era + YearStart(yoe) + doy - 719468 by {
      EraSplit(y);
    }
  }

  /** Days-from-civil undoes civil-from-days: every day is a day of the month `MonthOf` gives it. */
  lemma DayNumberOfMonthOf(day: int) returns (d: int)
    ensures 1 <= d <= DaysInMonth(MonthOf(day))
    ensures DayNumber(MonthOf(day), d) == day
  {
    var era, yoe, doy := MonthOfUnfold(day);
    d := CivilMonthInverse(era, yoe, doy);
  }

  /** A day lies in month `ym` exactly when it lies between the month's first and last day. */
  lemma MonthOfWithin(day: int, ym: YearMonth)
    requires ValidMonth(ym)
    ensures MonthOf(day) == ym <==> DayNumber(ym, 1) <= day <= DayNumber(ym, DaysInMonth(ym))
  {
    if MonthOf(day) == ym {
      var d := DayNumberOfMonthOf(day);
    }
    if DayNumber(ym, 1) <= day <= DayNumber(ym, DaysInMonth(ym)) {
      var d := day - DayNumber(ym, 1) + 1;
      assert DayNumber(ym, d) == day;
      MonthOfDayNumber(ym, d);
    }
  }
}
