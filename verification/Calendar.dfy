/** The shim's timestamp arithmetic (`shim/src/log.rs`): day counts to civil dates without a calendar
    library, against the Gregorian calendar as it is defined. */
module Calendar {

  // ---- The calendar, independently ----

  datatype Date = Date(year: int, month: int, day: int)

  /** The leap-year rule of RFC 3339, Appendix C. */
  predicate IsLeap(year: int) {
    year % 4 == 0 && (year % 100 != 0 || year % 400 == 0)
  }

  function DaysInMonth(year: int, month: int): int {
    if month == 2 then if IsLeap(year) then 29 else 28
    else if month == 4 || month == 6 || month == 9 || month == 11 then 30
    else 31
  }

  predicate IsDate(d: Date) {
    1 <= d.month <= 12 && 1 <= d.day <= DaysInMonth(d.year, d.month)
  }

  function DaysInYear(year: int): int {
    if IsLeap(year) then 366 else 365
  }

  function NextDate(d: Date): Date {
    if d.day < DaysInMonth(d.year, d.month) then d.(day := d.day + 1)
    else if d.month < 12 then Date(d.year, d.month + 1, 1)
    else Date(d.year + 1, 1, 1)
  }

  /** Days from 1970-01-01 to the first day of a year, counted year by year. */
  function YearStart(year: int): int
    decreases if year >= 1970 then year - 1970 else 1970 - year
  {
    if year == 1970 then 0
    else if year > 1970 then YearStart(year - 1) + DaysInYear(year - 1)
    else YearStart(year + 1) - DaysInYear(year)
  }

  /** Days in the months of a year before the given one, counted month by month. */
  function MonthStart(year: int, month: int): int
    requires 1 <= month <= 13
    decreases month
  {
    if month == 1 then 0 else MonthStart(year, month - 1) + DaysInMonth(year, month - 1)
  }

  /** The day number of a date: days since 1970-01-01. */
  function DayNumber(d: Date): int
    requires 1 <= d.month <= 12
  {
    YearStart(d.year) + MonthStart(d.year, d.month) + d.day - 1
  }

  // ---- The algorithm ----

  const I32_MIN := -0x8000_0000
  const I32_MAX := 0x7FFF_FFFF

  /** `as i32` of a wider integer. */
  function AsI32(n: int): int {
    var low := n % 0x1_0000_0000;
    if low > I32_MAX then low - 0x1_0000_0000 else low
  }

  /** The year of the 400-year era, of the `doe`-th day of the era (years start in March). */
  function YearOfEra(doe: int): int {
    (doe - doe / 1460 + doe / 36524 - doe / 146096) / 365
  }

  /** The month and day of the `doy`-th day of the year `y` that starts in March. */
  function DateOfMarchYear(y: int, doy: int): Date {
    var mp := (5 * doy + 2) / 153;
    var d := doy - (153 * mp + 2) / 5 + 1;
    var m := if mp < 10 then mp + 3 else mp - 9;
    Date(if m <= 2 then y + 1 else y, m, d)
  }

  /** The date of the `doe`-th day of an era. */
  function DateOfEra(era: int, doe: int): Date {
    var yoe := YearOfEra(doe);
    DateOfMarchYear(yoe + era * 400, doe - (365 * yoe + yoe / 4 - yoe / 100))
  }

  /** The date before its year is narrowed to 32 bits. */
  function WideCivil(days: int): Date {
    var z := days + 719_468;
    var era := (if z >= 0 then z else z - 146_096) / 146_097;
    DateOfEra(era, z - era * 146_097)
  }

  /** `civil_from_days`. */
  function CivilFromDays(days: int): Date {
    var d := WideCivil(days);
    d.(year := AsI32(d.year))
  }

  // ---- Year of era ----

  /** Days of an era before its year `y`, counting March to February. */
  function EraYearStart(y: int): int {
    365 * y + y / 4 - y / 100
  }

  lemma Quotient(x: int, k: int, v: int)
    requires 0 < k && k * v <= x < k * v + k
    ensures x / k == v
  {
    var d := x / k;
    ScaleStep(k, v - d);
    assert k * (v - d) == k * v - k * d;
  }

  lemma ScaleStep(k: int, m: int)
    requires k > 0
    ensures m >= 1 ==> k * m >= k
    ensures m <= -1 ==> k * m <= -k
  {
    if m >= 1 { assert k * m == k * (m - 1) + k; }
    if m <= -1 { assert k * m == k * (m + 1) - k; }
  }

  /** A day of the era as century, leap cycle, year of the cycle and day of the year. */
  ghost predicate SplitsAs(doe: int, c: int, q: int, t: int, u: int) {
    && doe == 36524 * c + 1461 * q + 365 * t + u
    && 0 <= c <= 3 && 0 <= q <= 24 && 0 <= t <= 3 && 0 <= u <= 365
    && (u == 365 ==> t == 3 && (q == 24 ==> c == 3))
  }

  lemma SplitDay(doe: int) returns (c: int, q: int, t: int, u: int)
    requires 0 <= doe <= 146_096
    ensures SplitsAs(doe, c, q, t, u)
  {
    c := if doe == 146_096 then 3 else doe / 36524;
    var r := doe - 36524 * c;
    q := r / 1461;
    var s := r - 1461 * q;
    t := if s == 1460 then 3 else s / 365;
    u := s - 365 * t;
  }

  lemma EraYearStartOfSplit(c: int, q: int, t: int)
    requires 0 <= c <= 3 && 0 <= q <= 24 && 0 <= t <= 3
    ensures EraYearStart(100 * c + 4 * q + t) == 36524 * c + 1461 * q + 365 * t
  {
    var y := 100 * c + 4 * q + t;
    Quotient(y, 4, 25 * c + q);
    Quotient(y, 100, c);
  }

  lemma YearOfSplit(doe: int, c: int, q: int, t: int, u: int)
    requires SplitsAs(doe, c, q, t, u)
    ensures YearOfEra(doe) == 100 * c + 4 * q + t
  {
    var w := 24 * c + q + 365 * t + u;
    var late := if w >= 1460 then 1 else 0;
    Quotient(doe, 1460, 25 * c + q + late);
    if doe == 146_096 {
      assert doe / 36524 - doe / 146_096 == 3;
    } else {
      Quotient(doe, 36524, c);
      Quotient(doe, 146_096, 0);
    }
    Quotient(doe - doe / 1460 + doe / 36524 - doe / 146_096, 365, 100 * c + 4 * q + t);
  }

  /** The year-of-era formula finds the year whose days bracket the given one. */
  lemma YearOfEraBrackets(doe: int)
    requires 0 <= doe <= 146_096
    ensures var y := YearOfEra(doe);
      0 <= y <= 399 && EraYearStart(y) <= doe && doe < (if y == 399 then 146_097 else EraYearStart(y + 1))
  {
    var c, q, t, u := SplitDay(doe);
    YearOfSplit(doe, c, q, t, u);
    EraYearStartOfSplit(c, q, t);
    if t < 3 { EraYearStartOfSplit(c, q, t + 1); }
    else if q < 24 { EraYearStartOfSplit(c, q + 1, 0); }
    else if c < 3 { EraYearStartOfSplit(c + 1, 0, 0); }
  }

  // ---- From days to dates ----

  /** The last day number whose year still fits 32 bits: the 31st of December of 2147483647. */
  const LAST_DAY := 784_351_576_776

  function LeapsBefore(year: int): int {
    (year - 1) / 4 - (year - 1) / 100 + (year - 1) / 400
  }

  lemma LeapsStep(year: int)
    ensures LeapsBefore(year + 1) == LeapsBefore(year) + if IsLeap(year) then 1 else 0
  {
    FloorStep(year, 4);
    FloorStep(year, 100);
    FloorStep(year, 400);
  }

  lemma FloorStep(n: int, k: int)
    requires k > 1
    ensures n / k == (n - 1) / k + if n % k == 0 then 1 else 0
  {
    var q, r := (n - 1) / k, (n - 1) % k;
    assert n == k * q + r + 1;
    if r == k - 1 {
      assert n == k * (q + 1) + 0;
      Quotient(n, k, q + 1);
    } else {
      Quotient(n, k, q);
    }
  }

  lemma {:induction false} YearStartClosed(year: int)
    ensures YearStart(year) == 365 * (year - 1970) + LeapsBefore(year) - 477
    decreases if year >= 1970 then year - 1970 else 1970 - year
  {
    if year > 1970 {
      YearStartClosed(year - 1);
      LeapsStep(year - 1);
    } else if year < 1970 {
      YearStartClosed(year + 1);
      LeapsStep(year);
    }
  }

  /** March 1st of year `yoe` of era `era`, by the calendar and by the era's own count. */
  lemma MarchFirst(era: int, yoe: int)
    ensures YearStart(yoe + 400 * era) + MonthStart(yoe + 400 * era, 3) + 719_468 == 146_097 * era + EraYearStart(yoe) + yoe / 400
  {
    var y := yoe + 400 * era;
    YearStartClosed(y);
    LeapsStep(y);
    assert MonthStart(y, 3) == MonthStart(y, 2) + DaysInMonth(y, 2) && MonthStart(y, 2) == MonthStart(y, 1) + 31;
    ShiftQuotient(yoe, 4, 100 * era);
    ShiftQuotient(yoe, 100, 4 * era);
    ShiftQuotient(yoe, 400, era);
  }

  lemma ShiftQuotient(n: int, k: int, m: int)
    requires k > 0
    ensures (n + k * m) / k == n / k + m
  {
    var q := n / k;
    assert n == k * q + n % k;
    assert k * (q + m) == k * q + k * m;
    Quotient(n + k * m, k, q + m);
  }

  /** Days from March 1st to the first of each month of the March year. */
  lemma MonthOffsets(year: int)
    ensures MonthStart(year, 1) == 0 && MonthStart(year, 2) == 31 && MonthStart(year, 3) == 31 + DaysInMonth(year, 2)
    ensures MonthStart(year, 4) == MonthStart(year, 3) + 31 && MonthStart(year, 5) == MonthStart(year, 3) + 61
    ensures MonthStart(year, 6) == MonthStart(year, 3) + 92 && MonthStart(year, 7) == MonthStart(year, 3) + 122
    ensures MonthStart(year, 8) == MonthStart(year, 3) + 153 && MonthStart(year, 9) == MonthStart(year, 3) + 184
    ensures MonthStart(year, 10) == MonthStart(year, 3) + 214 && MonthStart(year, 11) == MonthStart(year, 3) + 245
    ensures MonthStart(year, 12) == MonthStart(year, 3) + 275 && MonthStart(year, 13) == MonthStart(year, 3) + 306
    ensures MonthStart(year, 13) == DaysInYear(year)
  {
    assert MonthStart(year, 2) == MonthStart(year, 1) + 31;
    assert MonthStart(year, 3) == MonthStart(year, 2) + DaysInMonth(year, 2);
    assert MonthStart(year, 4) == MonthStart(year, 3) + 31;
    assert MonthStart(year, 5) == MonthStart(year, 4) + 30;
    assert MonthStart(year, 6) == MonthStart(year, 5) + 31;
    assert MonthStart(year, 7) == MonthStart(year, 6) + 30;
    assert MonthStart(year, 8) == MonthStart(year, 7) + 31;
    assert MonthStart(year, 9) == MonthStart(year, 8) + 31;
    assert MonthStart(year, 10) == MonthStart(year, 9) + 30;
    assert MonthStart(year, 11) == MonthStart(year, 10) + 31;
    assert MonthStart(year, 12) == MonthStart(year, 11) + 30;
    assert MonthStart(year, 13) == MonthStart(year, 12) + 31;
  }

  lemma MarchYearDate(y: int, doy: int)
    requires 0 <= doy <= 365 && (doy == 365 ==> IsLeap(y + 1))
    ensures var d := DateOfMarchYear(y, doy);
      IsDate(d) && DayNumber(d) == YearStart(y) + MonthStart(y, 3) + doy
  {
    MonthOffsets(y);
    MonthOffsets(y + 1);
    assert YearStart(y + 1) == YearStart(y) + DaysInYear(y);
    var mp := (5 * doy + 2) / 153;
    assert 0 <= mp <= 11;
  }

  lemma DayOfYearInRange(era: int, doe: int)
    requires 0 <= doe <= 146_096
    ensures var yoe := YearOfEra(doe); var doy := doe - EraYearStart(yoe);
      0 <= yoe <= 399 && 0 <= doy <= 365 && (doy == 365 ==> IsLeap(yoe + 400 * era + 1))
  {
    YearOfEraBrackets(doe);
    var yoe := YearOfEra(doe);
    var next := yoe + 1;
    FloorStep(next, 4);
    FloorStep(next, 100);
    assert EraYearStart(399) == 145_731;
    ShiftRemainder(next, 4, 100 * era);
    ShiftRemainder(next, 100, 4 * era);
    ShiftRemainder(next, 400, era);
  }

  lemma ShiftRemainder(n: int, k: int, m: int)
    requires k > 0
    ensures (n + k * m) % k == n % k
  {
    ShiftQuotient(n, k, m);
    assert k * (n / k + m) == k * (n / k) + k * m;
  }

  lemma YearStartMonotone(a: int, b: int)
    requires a <= b
    ensures YearStart(a) <= YearStart(b)
    decreases b - a
  {
    if a < b {
      YearStartMonotone(a, b - 1);
      assert YearStart(b) == YearStart(b - 1) + DaysInYear(b - 1);
    }
  }

  lemma AsI32Keeps(n: int)
    requires 0 <= n <= I32_MAX
    ensures AsI32(n) == n
  {
  }

  lemma DayOfEra(era: int, doe: int)
    requires 0 <= doe <= 146_096
    ensures var d := DateOfEra(era, doe);
      IsDate(d) && DayNumber(d) == 146_097 * era + doe - 719_468 && d.year >= era * 400
  {
    var yoe := YearOfEra(doe);
    var doy := doe - EraYearStart(yoe);
    DayOfYearInRange(era, doe);
    MarchYearOfEra(era, yoe);
    assert DateOfEra(era, doe) == DateOfMarchYear(yoe + era * 400, doy);
    MarchYearDate(yoe + era * 400, doy);
    YearAtLeast(yoe + era * 400, doy);
  }

  lemma YearAtLeast(y: int, doy: int)
    ensures DateOfMarchYear(y, doy).year >= y
  {
  }

  lemma MarchYearOfEra(era: int, yoe: int)
    requires 0 <= yoe <= 399
    ensures var y := yoe + era * 400;
      YearStart(y) + MonthStart(y, 3) + EraMarch(yoe) == 146_097 * era
  {
    MarchFirst(era, yoe);
    Quotient(yoe, 400, 0);
    assert 400 * era == era * 400;
  }

  function EraMarch(yoe: int): int {
    719_468 - EraYearStart(yoe)
  }

  lemma EraOf(z: nat) returns (era: int)
    ensures era == z / 146_097 && era >= 0 && 0 <= z - era * 146_097 <= 146_096
  {
    era := z / 146_097;
  }

  lemma WideCivilIsRight(days: int)
    requires -719_468 <= days
    ensures IsDate(WideCivil(days)) && DayNumber(WideCivil(days)) == days && WideCivil(days).year >= 0
  {
    var z := days + 719_468;
    var era := EraOf(z);
    DayOfEra(era, z - era * 146_097);
    assert WideCivil(days) == DateOfEra(era, z - era * 146_097);
  }

  lemma YearStartAtLimit()
    ensures YearStart(I32_MAX + 1) == LAST_DAY + 1
  {
    YearStartClosed(I32_MAX + 1);
  }

  lemma YearFits(d: Date)
    requires IsDate(d) && DayNumber(d) <= LAST_DAY
    ensures d.year <= I32_MAX
  {
    if d.year > I32_MAX {
      YearStartMonotone(I32_MAX + 1, d.year);
      YearStartAtLimit();
      MonthStartNonNegative(d.year, d.month);
      assert false;
    }
  }

  /** Over the whole range, the algorithm returns the Gregorian date with the given day number. */
  lemma CivilDateIsRight(days: int)
    requires -719_468 <= days <= LAST_DAY
    ensures IsDate(CivilFromDays(days)) && DayNumber(CivilFromDays(days)) == days
  {
    WideCivilIsRight(days);
    YearFits(WideCivil(days));
    AsI32Keeps(WideCivil(days).year);
  }

  lemma MonthStartNonNegative(year: int, month: int)
    requires 1 <= month <= 13
    ensures MonthStart(year, month) >= 0
  {
  }

  // ---- The correspondence is a bijection that follows the calendar ----

  predicate Before(a: Date, b: Date) {
    a.year < b.year || (a.year == b.year && (a.month < b.month || (a.month == b.month && a.day < b.day)))
  }

  lemma {:induction false} MonthStartMonotone(year: int, a: int, b: int)
    requires 1 <= a <= b <= 13
    ensures MonthStart(year, a) <= MonthStart(year, b)
    ensures a < b ==> MonthStart(year, a) + DaysInMonth(year, a) <= MonthStart(year, b)
    decreases b - a
  {
    if a < b { MonthStartMonotone(year, a, b - 1); }
  }

  lemma WithinYear(d: Date)
    requires IsDate(d)
    ensures YearStart(d.year) <= DayNumber(d) < YearStart(d.year + 1)
  {
    MonthOffsets(d.year);
    MonthStartMonotone(d.year, d.month, 13);
    MonthStartNonNegative(d.year, d.month);
    assert YearStart(d.year + 1) == YearStart(d.year) + DaysInYear(d.year);
  }

  lemma DayNumberMonotone(a: Date, b: Date)
    requires IsDate(a) && IsDate(b) && Before(a, b)
    ensures DayNumber(a) < DayNumber(b)
  {
    if a.year < b.year {
      WithinYear(a);
      WithinYear(b);
      YearStartMonotone(a.year + 1, b.year);
    } else if a.month < b.month {
      MonthStartMonotone(a.year, a.month, b.month);
    }
  }

  lemma NextDateCountsOne(d: Date)
    requires IsDate(d)
    ensures IsDate(NextDate(d)) && DayNumber(NextDate(d)) == DayNumber(d) + 1
  {
    if d.day >= DaysInMonth(d.year, d.month) {
      if d.month < 12 {
        assert MonthStart(d.year, d.month + 1) == MonthStart(d.year, d.month) + DaysInMonth(d.year, d.month);
      } else {
        MonthOffsets(d.year);
        assert YearStart(d.year + 1) == YearStart(d.year) + DaysInYear(d.year);
      }
    }
  }

  lemma SameDayNumberSameDate(a: Date, b: Date)
    requires IsDate(a) && IsDate(b) && DayNumber(a) == DayNumber(b)
    ensures a == b
  {
    if Before(a, b) { DayNumberMonotone(a, b); }
    if Before(b, a) { DayNumberMonotone(b, a); }
  }

  /** The day after is the next calendar date, and later days have later dates. */
  lemma CivilFollowsCalendar(days: int, later: int)
    requires -719_468 <= days < later <= LAST_DAY
    ensures CivilFromDays(days + 1) == NextDate(CivilFromDays(days))
    ensures Before(CivilFromDays(days), CivilFromDays(later))
  {
    CivilDateIsRight(days);
    CivilDateIsRight(days + 1);
    CivilDateIsRight(later);
    NextDateCountsOne(CivilFromDays(days));
    SameDayNumberSameDate(CivilFromDays(days + 1), NextDate(CivilFromDays(days)));
    if Before(CivilFromDays(later), CivilFromDays(days)) {
      DayNumberMonotone(CivilFromDays(later), CivilFromDays(days));
    }
  }

  /** Every calendar date in the range is the date of its own day number. */
  lemma CivilInvertsDayNumber(d: Date)
    requires IsDate(d) && -719_468 <= DayNumber(d) <= LAST_DAY
    ensures CivilFromDays(DayNumber(d)) == d
  {
    CivilDateIsRight(DayNumber(d));
    SameDayNumberSameDate(CivilFromDays(DayNumber(d)), d);
  }

  // ---- Timestamps ----

  datatype Timestamp = Timestamp(date: Date, hour: int, minute: int, second: int)

  /** The fields of the UTC timestamp of a number of seconds since the epoch. */
  function TimestampOf(totalSecs: nat): Timestamp {
    var secsOfDay := totalSecs % 86_400;
    Timestamp(CivilFromDays(totalSecs / 86_400), secsOfDay / 3600, (secsOfDay % 3600) / 60, secsOfDay % 60)
  }

  /** The fields are in range and together give the seconds back; so no two instants share a timestamp. */
  lemma TimestampRecombines(totalSecs: nat)
    requires totalSecs / 86_400 <= LAST_DAY
    ensures var t := TimestampOf(totalSecs);
      && IsDate(t.date) && 0 <= t.hour < 24 && 0 <= t.minute < 60 && 0 <= t.second < 60
      && DayNumber(t.date) * 86_400 + t.hour * 3600 + t.minute * 60 + t.second == totalSecs
  {
    CivilDateIsRight(totalSecs / 86_400);
    SecondsOfDay(totalSecs % 86_400);
    var days := totalSecs / 86_400;
    assert totalSecs == days * 86_400 + totalSecs % 86_400;
  }

  lemma SecondsOfDay(s: nat)
    requires s < 86_400
    ensures 0 <= s / 3600 < 24 && 0 <= (s % 3600) / 60 < 60 && 0 <= s % 60 < 60
    ensures (s / 3600) * 3600 + ((s % 3600) / 60) * 60 + s % 60 == s
  {
    var r := s % 3600;
    ShiftRemainder(r, 60, 60 * (s / 3600));
    assert s == r + 60 * (60 * (s / 3600));
  }

  /** The bound is exact for every later day: past it the year does not fit 32 bits, and the result has
      another day number or is no date. */
  lemma CivilDateIsRightIff(days: int)
    requires -719_468 <= days
    ensures IsDate(CivilFromDays(days)) && DayNumber(CivilFromDays(days)) == days <==> days <= LAST_DAY
  {
    if days <= LAST_DAY {
      CivilDateIsRight(days);
    } else {
      WideCivilIsRight(days);
      YearTooLarge(WideCivil(days));
      assert CivilFromDays(days).year != WideCivil(days).year;
      if IsDate(CivilFromDays(days)) && DayNumber(CivilFromDays(days)) == days {
        SameDayNumberSameDate(CivilFromDays(days), WideCivil(days));
      }
    }
  }

  lemma YearTooLarge(d: Date)
    requires IsDate(d) && DayNumber(d) > LAST_DAY
    ensures d.year > I32_MAX
  {
    if d.year <= I32_MAX {
      WithinYear(d);
      YearStartMonotone(d.year + 1, I32_MAX + 1);
      YearStartAtLimit();
    }
  }

  /** What the first of them gives: the day after the last one does not fit the 32-bit year, and wraps to a
      negative one. */
  lemma LastDayIsLast()
    ensures CivilFromDays(LAST_DAY) == Date(I32_MAX, 12, 31)
    ensures CivilFromDays(LAST_DAY + 1) == Date(I32_MIN, 1, 1)
  {
    LastDates();
    WideCivilIsRight(LAST_DAY);
    WideCivilIsRight(LAST_DAY + 1);
    SameDayNumberSameDate(WideCivil(LAST_DAY), Date(I32_MAX, 12, 31));
    SameDayNumberSameDate(WideCivil(LAST_DAY + 1), Date(I32_MAX + 1, 1, 1));
    AsI32Keeps(I32_MAX);
    assert AsI32(I32_MAX + 1) == I32_MIN;
  }

  lemma LastDates()
    ensures IsDate(Date(I32_MAX, 12, 31)) && DayNumber(Date(I32_MAX, 12, 31)) == LAST_DAY
    ensures IsDate(Date(I32_MAX + 1, 1, 1)) && DayNumber(Date(I32_MAX + 1, 1, 1)) == LAST_DAY + 1
  {
    YearStartClosed(I32_MAX + 1);
    MonthOffsets(I32_MAX + 1);
    NextDateCountsOne(Date(I32_MAX, 12, 31));
  }
}
