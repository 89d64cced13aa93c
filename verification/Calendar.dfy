/** The civil-date arithmetic of the SQL layer (`civil_from_days` in the API, `days_from_civil` in the
    SQL crate) against the proleptic Gregorian calendar of section 5.7 and Appendix C of RFC 3339. */
module Calendar {

  import opened Options
  import opened Text

  datatype Civil = Civil(year: int, month: int, day: int)

  // ---- the calendar ------------------------------------------------------------------------

  predicate Leap(y: int) {
    (y % 4 == 0 && y % 100 != 0) || y % 400 == 0
  }

  function DaysInMonth(y: int, m: int): int {
    if m == 2 then (if Leap(y) then 29 else 28)
    else if m == 4 || m == 6 || m == 9 || m == 11 then 30
    else if 1 <= m <= 12 then 31
    else 0
  }

  predicate IsDate(c: Civil) {
    1 <= c.month <= 12 && 1 <= c.day <= DaysInMonth(c.year, c.month)
  }

  /** The day after `c`. */
  function NextDate(c: Civil): Civil {
    if c.day < DaysInMonth(c.year, c.month) then c.(day := c.day + 1)
    else if c.month < 12 then Civil(c.year, c.month + 1, 1)
    else Civil(c.year + 1, 1, 1)
  }

  predicate Earlier(a: Civil, b: Civil) {
    a.year < b.year || (a.year == b.year && (a.month < b.month || (a.month == b.month && a.day < b.day)))
  }

  /** Days of year `y` before month `m`. */
  function DaysBeforeMonth(y: int, m: nat): int {
    if m <= 1 then 0 else DaysBeforeMonth(y, m - 1) + DaysInMonth(y, m - 1)
  }

  /** Days between 0001-01-01 and the first day of year `y`. */
  function DaysBeforeYear(y: int): int {
    365 * (y - 1) + (y - 1) / 4 - (y - 1) / 100 + (y - 1) / 400
  }

  /** The reference day count: days since 1970-01-01, from the month lengths. */
  function DayCount(c: Civil): int
    requires IsDate(c)
  {
    DaysBeforeYear(c.year) - DaysBeforeYear(1970) + DaysBeforeMonth(c.year, c.month) + c.day - 1
  }

  // ---- the code ----------------------------------------------------------------------------

  /** Division as `i64` performs it: toward zero. */
  function TruncDiv(a: int, b: int): int
    requires b > 0
  {
    if a >= 0 then a / b else -((-a) / b)
  }

  function TruncRem(a: int, b: int): int
    requires b > 0
  {
    a - b * TruncDiv(a, b)
  }

  /** Days from the start of a 400-year era to its year `yoe`, years starting in March. */
  function YearStart(yoe: nat): nat {
    365 * yoe + yoe / 4 - yoe / 100
  }

  function YearOfEra(doe: nat): int {
    (doe - doe / 1460 + doe / 36524 - doe / 146096) / 365
  }

  /** The arithmetic of `format_date`. The `nat` results are `u64` in the source: that they are in
      range here is that no unsigned subtraction there underflows and no cast changes a value. */
  function CivilFromDays(days: int): Civil {
    var z := days + 719_468;
    var era := TruncDiv(if z >= 0 then z else z - 146_096, 146_097);
    EraFloor(z);
    FromEra(era, z - era * 146_097)
  }

  /** The civil date of day `doe` of an era. */
  function FromEra(era: int, doe: nat): Civil
    requires doe < 146_097
  {
    YearOfEraBounds(doe);
    var yoe: nat := YearOfEra(doe);
    var doy: nat := doe - YearStart(yoe);
    MarchCivil(yoe + era * 400, doy)
  }

  /** The civil date of day `doy` of the year that starts in March of `y`. */
  function MarchCivil(y: int, doy: nat): Civil
    requires doy <= 365
  {
    MonthBounds(doy);
    var mp: nat := (5 * doy + 2) / 153;
    var d: nat := doy - (153 * mp + 2) / 5 + 1;
    var m: nat := if mp < 10 then mp + 3 else mp - 9;
    Civil(if m <= 2 then y + 1 else y, m, d)
  }

  lemma EraFloor(z: int)
    ensures TruncDiv(if z >= 0 then z else z - 146_096, 146_097) == z / 146_097
  {
  }

  /** The year formula picks the year whose days contain `doe`. */
  lemma YearOfEraBounds(doe: nat)
    requires doe < 146_097
    ensures doe - doe / 1460 >= 0 && doe - doe / 1460 + doe / 36524 - doe / 146096 >= 0
    ensures 0 <= YearOfEra(doe) < 400
    ensures YearStart(YearOfEra(doe)) <= doe
    ensures doe - YearStart(YearOfEra(doe)) <= (if Leap(YearOfEra(doe) + 1) then 365 else 364)
  {
    var c, q, r, e := EraSplits(doe);
    YearFormula(c, q, r, e);
  }

  /** Centuries, four-year cycles, years and days within the era. */
  lemma EraSplits(doe: nat) returns (c: nat, q: nat, r: nat, e: nat)
    requires doe < 146_097
    ensures c <= 3 && q <= 24 && r <= 3 && doe == 36524 * c + 1461 * q + 365 * r + e
    ensures e <= if r == 3 && (q < 24 || c == 3) then 365 else 364
  {
    c := if doe == 146_096 then 3 else doe / 36524;
    var r1 := doe - 36524 * c;
    q := r1 / 1461;
    var r2 := r1 - 1461 * q;
    r := if r2 == 1460 then 3 else r2 / 365;
    e := r2 - 365 * r;
  }

  lemma YearFormula(c: nat, q: nat, r: nat, e: nat)
    requires c <= 3 && q <= 24 && r <= 3
    requires e <= if r == 3 && (q < 24 || c == 3) then 365 else 364
    ensures var doe, y := 36524 * c + 1461 * q + 365 * r + e, 100 * c + 4 * q + r;
      && YearOfEra(doe) == y && YearStart(y) + e == doe
      && (e == 365 ==> Leap(y + 1))
  {
    var doe, y := 36524 * c + 1461 * q + 365 * r + e, 100 * c + 4 * q + r;
    assert y / 4 == 25 * c + q && y / 100 == c;
    var last := if doe == 146_096 then 1 else 0;
    assert doe / 36524 == c + last && doe / 146096 == last;
    var rem := 24 * c + q + 365 * r + e;
    assert doe == 1460 * (25 * c + q) + rem;
    var k := if rem >= 1460 then 1 else 0;
    assert doe / 1460 == 25 * c + q + k;
    assert doe - doe / 1460 + doe / 36524 - doe / 146096 == 365 * y + (e - k);
    assert 0 <= e - k <= 364;
  }

  lemma MonthBounds(doy: nat)
    requires doy <= 365
    ensures var mp := (5 * doy + 2) / 153;
      0 <= mp <= 11 && (153 * mp + 2) / 5 <= doy < (153 * (mp + 1) + 2) / 5
  {
  }

  /** `days_from_civil`, with the checks the machine does not make: `None` where some intermediate
      leaves `i64` (the source panics or wraps there, depending on the build). */
  function DaysFromCivil(c: Civil): Option<int> {
    var y := if c.month <= 2 then c.year - 1 else c.year;
    var shifted := if y >= 0 then y else y - 399;
    var era := TruncDiv(shifted, 400);
    var yoe := y - era * 400;
    var mp := if c.month > 2 then c.month - 3 else c.month + 9;
    var doy := (153 * mp + 2) / 5 + c.day - 1;
    var doe := yoe * 365 + yoe / 4 - yoe / 100 + doy;
    if InI64(y) && InI64(shifted) then EraCount(era, doe) else None
  }

  /** Its last line: day `doe` of an era, counted from 1970-01-01. */
  function EraCount(era: int, doe: int): Option<int> {
    var days := era * 146_097;
    if InI64(days) && InI64(days + doe) && InI64(days + doe - 719_468) then Some(days + doe - 719_468) else None
  }

  // ---- the two counts agree ----------------------------------------------------------------

  /** The month lengths, summed up. */
  lemma MonthTable(y: int)
    ensures var l := if Leap(y) then 1 else 0;
      && DaysBeforeMonth(y, 1) == 0 && DaysBeforeMonth(y, 2) == 31 && DaysBeforeMonth(y, 3) == 59 + l
      && DaysBeforeMonth(y, 4) == 90 + l && DaysBeforeMonth(y, 5) == 120 + l && DaysBeforeMonth(y, 6) == 151 + l
      && DaysBeforeMonth(y, 7) == 181 + l && DaysBeforeMonth(y, 8) == 212 + l && DaysBeforeMonth(y, 9) == 243 + l
      && DaysBeforeMonth(y, 10) == 273 + l && DaysBeforeMonth(y, 11) == 304 + l && DaysBeforeMonth(y, 12) == 334 + l
  {
    assert DaysBeforeMonth(y, 1) == 0;
    assert DaysBeforeMonth(y, 2) == 31;
    assert DaysBeforeMonth(y, 3) == 31 + DaysInMonth(y, 2);
    assert DaysBeforeMonth(y, 4) == DaysBeforeMonth(y, 3) + 31;
    assert DaysBeforeMonth(y, 5) == DaysBeforeMonth(y, 4) + 30;
    assert DaysBeforeMonth(y, 6) == DaysBeforeMonth(y, 5) + 31;
    assert DaysBeforeMonth(y, 7) == DaysBeforeMonth(y, 6) + 30;
    assert DaysBeforeMonth(y, 8) == DaysBeforeMonth(y, 7) + 31;
    assert DaysBeforeMonth(y, 9) == DaysBeforeMonth(y, 8) + 31;
    assert DaysBeforeMonth(y, 10) == DaysBeforeMonth(y, 9) + 30;
    assert DaysBeforeMonth(y, 11) == DaysBeforeMonth(y, 10) + 31;
    assert DaysBeforeMonth(y, 12) == DaysBeforeMonth(y, 11) + 30;
  }

  /** Days before the year that starts in January of `y + 1`, and of `y`, by era. */
  lemma YearByEra(era: int, yoe: nat)
    requires yoe < 400
    ensures DaysBeforeYear(400 * era + yoe + 1) == 146_097 * era + YearStart(yoe)
    ensures DaysBeforeYear(400 * era + yoe)
         == 146_097 * era + YearStart(yoe) - 365 - (if Leap(400 * era + yoe) then 1 else 0)
  {
    var y := 400 * era + yoe;
    assert y / 4 == 100 * era + yoe / 4 && y / 100 == 4 * era + yoe / 100 && y / 400 == era;
    assert (y - 1) / 4 == y / 4 - (if y % 4 == 0 then 1 else 0);
    assert (y - 1) / 100 == y / 100 - (if y % 100 == 0 then 1 else 0);
    assert (y - 1) / 400 == y / 400 - (if y % 400 == 0 then 1 else 0);
  }

  /** The reference count in the algorithms' own coordinates: era, March year and March month. */
  lemma CountByMarch(c: Civil, era: int, yoe: nat, mp: nat)
    requires IsDate(c) && yoe < 400 && mp <= 11
    requires c.month == if mp < 10 then mp + 3 else mp - 9
    requires c.year == 400 * era + yoe + if mp < 10 then 0 else 1
    ensures DayCount(c) == 146_097 * era + YearStart(yoe) + (153 * mp + 2) / 5 + c.day - 1 - 719_468
  {
    YearByEra(era, yoe);
    MonthTable(c.year);
    assert DaysBeforeYear(1970) == 719_162;
  }

  lemma LeapByEra(era: int, k: int)
    ensures Leap(400 * era + k) <==> Leap(k)
  {
    ShiftMod(era, k);
  }

  lemma ShiftMod(era: int, k: int)
    ensures (400 * era + k) % 400 == k % 400
    ensures (400 * era + k) % 100 == k % 100
    ensures (400 * era + k) % 4 == k % 4
  {
    Mod400(era, k);
    Mod100(4 * era, k);
    Mod4(100 * era, k);
  }

  lemma Mod400(n: int, k: int)
    ensures (400 * n + k) % 400 == k % 400
  {
  }

  lemma Mod100(n: int, k: int)
    ensures (100 * n + k) % 100 == k % 100
  {
  }

  lemma Mod4(n: int, k: int)
    ensures (4 * n + k) % 4 == k % 4
  {
  }

  /** Month and day of a March-based year are a calendar date, counted from its March. */
  lemma MarchDate(era: int, yoe: nat, doy: nat)
    requires yoe < 400 && doy <= if Leap(yoe + 1) then 365 else 364
    ensures var c := MarchCivil(400 * era + yoe, doy);
      IsDate(c) && DayCount(c) == 146_097 * era + YearStart(yoe) + doy - 719_468
  {
    MonthBounds(doy);
    LeapByEra(era, yoe + 1);
    LeapByEra(era, yoe);
    CountByMarch(MarchCivil(400 * era + yoe, doy), era, yoe, (5 * doy + 2) / 153);
  }

  lemma CivilParts(days: int) returns (era: int, yoe: nat, doy: nat)
    ensures yoe < 400 && doy <= if Leap(yoe + 1) then 365 else 364
    ensures CivilFromDays(days) == MarchCivil(400 * era + yoe, doy)
    ensures days == 146_097 * era + YearStart(yoe) + doy - 719_468
  {
    var z := days + 719_468;
    EraFloor(z);
    era := z / 146_097;
    yoe, doy := EraParts(era, z - era * 146_097);
  }

  lemma EraParts(era: int, doe: nat) returns (yoe: nat, doy: nat)
    requires doe < 146_097
    ensures yoe < 400 && doy <= if Leap(yoe + 1) then 365 else 364
    ensures FromEra(era, doe) == MarchCivil(400 * era + yoe, doy) && doe == YearStart(yoe) + doy
  {
    YearOfEraBounds(doe);
    yoe := YearOfEra(doe);
    doy := doe - YearStart(yoe);
  }

  /** Every day count, negative ones included, is turned into the calendar date it counts. */
  lemma CivilIsTheDate(days: int)
    ensures IsDate(CivilFromDays(days)) && DayCount(CivilFromDays(days)) == days
  {
    var era, yoe, doy := CivilParts(days);
    MarchDate(era, yoe, doy);
  }

  lemma DayOfYearBounds(y: int, m: nat, d: int)
    requires IsDate(Civil(y, m, d))
    ensures 0 <= DaysBeforeMonth(y, m) + d - 1 <= (if Leap(y) then 365 else 364)
  {
    MonthTable(y);
  }

  lemma YearsApart(y: int, y': int)
    requires y < y'
    ensures DaysBeforeYear(y) + (if Leap(y) then 366 else 365) <= DaysBeforeYear(y')
    decreases y' - y
  {
    var e, k := y / 400, y % 400;
    YearByEra(e, k);
    if y + 1 < y' {
      YearsApart(y + 1, y');
    }
  }

  lemma MonthsApart(y: int, m: nat, m': nat)
    requires 1 <= m < m' <= 12
    ensures DaysBeforeMonth(y, m) + DaysInMonth(y, m) <= DaysBeforeMonth(y, m')
  {
    MonthTable(y);
  }

  /** Later dates have larger counts, so the count is injective. */
  lemma CountMonotone(a: Civil, b: Civil)
    requires IsDate(a) && IsDate(b) && Earlier(a, b)
    ensures DayCount(a) < DayCount(b)
  {
    DayOfYearBounds(a.year, a.month, a.day);
    DayOfYearBounds(b.year, b.month, b.day);
    if a.year < b.year {
      YearsApart(a.year, b.year);
    } else if a.month < b.month {
      MonthsApart(a.year, a.month, b.month);
    }
  }

  /** The other half of the bijection: every calendar date comes back from its count. */
  lemma DateIsRecovered(c: Civil)
    requires IsDate(c)
    ensures CivilFromDays(DayCount(c)) == c
  {
    var b := CivilFromDays(DayCount(c));
    CivilIsTheDate(DayCount(c));
    if Earlier(b, c) {
      CountMonotone(b, c);
    } else if Earlier(c, b) {
      CountMonotone(c, b);
    }
  }

  lemma YearLength(y: int)
    ensures DaysBeforeYear(y + 1) == DaysBeforeYear(y) + 365 + if Leap(y) then 1 else 0
  {
    YearByEra(y / 400, y % 400);
  }

  /** The reference count goes up by one from each date to the next. */
  lemma NextCount(c: Civil)
    requires IsDate(c)
    ensures IsDate(NextDate(c)) && DayCount(NextDate(c)) == DayCount(c) + 1
  {
    if c.month == 12 {
      MonthTable(c.year);
      YearLength(c.year);
    }
  }

  /** Consecutive day counts are consecutive calendar dates, starting from the Unix epoch. */
  lemma ConsecutiveDates(days: int)
    ensures CivilFromDays(days + 1) == NextDate(CivilFromDays(days))
    ensures CivilFromDays(0) == Civil(1970, 1, 1)
  {
    CivilIsTheDate(days);
    NextIsRecovered(CivilFromDays(days), days);
    EpochIsUnix();
  }

  lemma NextIsRecovered(c: Civil, days: int)
    requires IsDate(c) && DayCount(c) == days
    ensures CivilFromDays(days + 1) == NextDate(c)
  {
    NextCount(c);
    RecoveredFrom(NextDate(c), days + 1);
  }

  lemma RecoveredFrom(c: Civil, days: int)
    requires IsDate(c) && DayCount(c) == days
    ensures CivilFromDays(days) == c
  {
    DateIsRecovered(c);
  }

  lemma EpochIsUnix()
    ensures CivilFromDays(0) == Civil(1970, 1, 1)
  {
    assert DayCount(Civil(1970, 1, 1)) == 0;
    DateIsRecovered(Civil(1970, 1, 1));
  }

  /** Date order is day-count order. */
  lemma DateOrder(a: int, b: int)
    ensures Earlier(CivilFromDays(a), CivilFromDays(b)) <==> a < b
    ensures CivilFromDays(a) == CivilFromDays(b) <==> a == b
  {
    CivilIsTheDate(a);
    CivilIsTheDate(b);
    var c, d := CivilFromDays(a), CivilFromDays(b);
    if Earlier(c, d) {
      CountMonotone(c, d);
    } else if Earlier(d, c) {
      CountMonotone(d, c);
    }
  }

  lemma FloorEra(y: int)
    ensures TruncDiv(if y >= 0 then y else y - 399, 400) == y / 400
  {
  }

  /** The parser's `days_from_civil` is the reference count, wherever it stays inside `i64`. */
  lemma ParserCountAgrees(c: Civil)
    requires IsDate(c)
    ensures DaysFromCivil(c).Some? ==> DaysFromCivil(c).value == DayCount(c)
  {
    var y := if c.month <= 2 then c.year - 1 else c.year;
    FloorEra(y);
    var yoe: nat := y - (y / 400) * 400;
    var mp: nat := if c.month > 2 then c.month - 3 else c.month + 9;
    CountByMarch(c, y / 400, yoe, mp);
  }

  /** ... which it does for every year within twenty-five quadrillion. */
  lemma ParserCountFits(c: Civil)
    requires IsDate(c) && -25_000_000_000_000_000 <= c.year <= 25_000_000_000_000_000
    ensures DaysFromCivil(c) == Some(DayCount(c))
  {
    var y := if c.month <= 2 then c.year - 1 else c.year;
    FloorEra(y);
    ParserCountAgrees(c);
  }

  /** The last two additions are the ones that can leave `i64`. */
  lemma EraCountExactly(y: int, era: int, doe: int)
    requires 400 * era <= y < 400 * era + 400 && 0 <= doe <= 146_999
    ensures var count := era * 146_097 + doe - 719_468;
      && EraCount(era, doe) == (if InI64(count) && InI64(count + 719_468) then Some(count) else None)
      && (EraCount(era, doe).Some? ==> InI64(y) && InI64(y - 399))
  {
  }

  lemma CountParts(c: Civil, y: int, era: int, doe: int)
    requires IsDate(c) && y == (if c.month <= 2 then c.year - 1 else c.year) && era == y / 400
    requires var yoe, mp := y - era * 400, if c.month > 2 then c.month - 3 else c.month + 9;
      doe == yoe * 365 + yoe / 4 - yoe / 100 + ((153 * mp + 2) / 5 + c.day - 1)
    ensures 400 * era <= y < 400 * era + 400 && 0 <= doe <= 146_999
    ensures DayCount(c) == era * 146_097 + doe - 719_468
  {
    var yoe: nat := y - era * 400;
    var mp: nat := if c.month > 2 then c.month - 3 else c.month + 9;
    CountByMarch(c, era, yoe, mp);
  }

  lemma CountIs(c: Civil, y: int, era: int, doe: int)
    requires y == (if c.month <= 2 then c.year - 1 else c.year) && era == y / 400
    requires var yoe, mp := y - era * 400, if c.month > 2 then c.month - 3 else c.month + 9;
      doe == yoe * 365 + yoe / 4 - yoe / 100 + ((153 * mp + 2) / 5 + c.day - 1)
    requires 400 * era <= y < 400 * era + 400 && 0 <= doe <= 146_999
    ensures var count := era * 146_097 + doe - 719_468;
      DaysFromCivil(c) == if InI64(count) && InI64(count + 719_468) then Some(count) else None
  {
    FloorEra(y);
    EraCountExactly(y, era, doe);
  }

  /** Exactly when the parser's day arithmetic fits: the true count must be an `i64`, and so must the
      count from 0000-03-01, which it computes first. */
  lemma ParserCountExactly(c: Civil)
    requires IsDate(c)
    ensures DaysFromCivil(c) == if InI64(DayCount(c)) && InI64(DayCount(c) + 719_468) then Some(DayCount(c)) else None
  {
    var y := if c.month <= 2 then c.year - 1 else c.year;
    var era, yoe := y / 400, y - (y / 400) * 400;
    var mp := if c.month > 2 then c.month - 3 else c.month + 9;
    var doe := yoe * 365 + yoe / 4 - yoe / 100 + ((153 * mp + 2) / 5 + c.day - 1);
    CountParts(c, y, era, doe);
    CountIs(c, y, era, doe);
  }

  /** A year the parser's `i64` year accepts and its day arithmetic does not fit. */
  lemma ParserCountOverflows()
    ensures DaysFromCivil(Civil(1_000_000_000_000_000_000, 1, 1)) == None
  {
  }

  /** For every `i32` day count the machine arithmetic stays inside `i64` and the year inside `i32`. */
  lemma DateArithmeticFits(days: int)
    requires InI32(days)
    ensures var z, era := days + 719_468, (days + 719_468) / 146_097;
      InI64(z) && InI64(z - 146_096) && InI64(era * 146_097) && InI64(era * 400)
    ensures -5_877_641 <= CivilFromDays(days).year <= 5_881_580
  {
    var z := days + 719_468;
    var era := z / 146_097;
    EraRest(z, era);
    EraRange(z, era);
    YearFits(days, z, era);
  }

  lemma EraRange(z: int, era: int)
    requires -0x8000_0000 + 719_468 <= z < 0x8000_0000 + 719_468 && 0 <= z - era * 146_097 < 146_097
    ensures -14_695 <= era <= 14_703
    ensures era == -14_695 ==> z - era * 146_097 >= 131_235
    ensures era == 14_703 ==> z - era * 146_097 <= 138_924
  {
  }

  lemma YearFits(days: int, z: int, era: int)
    requires InI32(days) && z == days + 719_468 && era == z / 146_097 && 0 <= z - era * 146_097 < 146_097
    ensures -5_877_641 <= CivilFromDays(days).year <= 5_881_580
  {
    EraRange(z, era);
    EraYears(era, z - era * 146_097);
    CivilByEra(days, z, era);
  }

  lemma EraRest(z: int, era: int)
    requires era == z / 146_097
    ensures 0 <= z - era * 146_097 < 146_097
  {
  }

  lemma CivilByEra(days: int, z: int, era: int)
    requires z == days + 719_468 && era == z / 146_097 && 0 <= z - era * 146_097 < 146_097
    ensures CivilFromDays(days) == FromEra(era, z - era * 146_097)
  {
    EraFloor(z);
  }

  /** The years of an era, and of its parts that `i32` day counts begin and end in. */
  lemma EraYears(era: int, doe: nat)
    requires doe < 146_097
    ensures 400 * era <= FromEra(era, doe).year <= 400 * era + 400
    ensures doe >= 131_235 ==> FromEra(era, doe).year >= 400 * era + 359
    ensures doe <= 138_924 ==> FromEra(era, doe).year <= 400 * era + 380
  {
    YearOfEraBounds(doe);
    MarchYear(YearOfEra(doe) + era * 400, doe - YearStart(YearOfEra(doe)));
  }

  lemma MarchYear(y: int, doy: nat)
    requires doy <= 365
    ensures MarchCivil(y, doy).year == if doy >= 306 then y + 1 else y
  {
    MonthBounds(doy);
  }
}
