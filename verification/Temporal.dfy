/** `DATE`, `TIME` and `TIMESTAMP` text: what the API prints for a stored value and what the SQL
    layer's parser makes of such text. */
module Temporal {

  import opened Options
  import opened Text
  import opened Calendar

  const MICROS_PER_SEC := 1_000_000
  const MICROS_PER_DAY := 86_400_000_000

  // ---- printing ----------------------------------------------------------------------------

  function DateText(c: Civil): string {
    ZeroPadded(c.year, 4) + "-" + ZeroPadded(c.month, 2) + "-" + ZeroPadded(c.day, 2)
  }

  function FormatDate(days: int): string {
    DateText(CivilFromDays(days))
  }

  /** Hours, minutes, seconds and microseconds as `format_time` computes them. */
  datatype Clock = Clock(hour: int, minute: int, second: int, micro: int)

  function ClockOf(micros: int): Clock {
    var total := micros / MICROS_PER_SEC;
    Clock(TruncDiv(total, 3600), TruncDiv(TruncRem(total, 3600), 60), TruncRem(total, 60), micros % MICROS_PER_SEC)
  }

  function FractionText(micro: int): string {
    if micro == 0 then "" else "." + ZeroPadded(micro, 6)
  }

  function HmsText(k: Clock): string {
    ZeroPadded(k.hour, 2) + ":" + ZeroPadded(k.minute, 2) + ":" + ZeroPadded(k.second, 2)
  }

  function ClockText(k: Clock): string {
    HmsText(k) + FractionText(k.micro)
  }

  function FormatTime(micros: int): string {
    ClockText(ClockOf(micros))
  }

  /** `as i32`: keeps the low 32 bits. */
  function AsI32(n: int): int {
    (n + 0x8000_0000) % 0x1_0000_0000 - 0x8000_0000
  }

  function FormatTimestamp(micros: int): string {
    FormatDate(AsI32(micros / MICROS_PER_DAY)) + "T" + FormatTime(micros % MICROS_PER_DAY)
  }

  // ---- parsing -----------------------------------------------------------------------------

  /** `Overflow` stands for an `i64` overflow in `days_from_civil`. */
  datatype Parsed = Ok(value: int) | Err | Overflow

  function ParseDateParts(text: string): Option<Civil> {
    var parts := Split(text, '-');
    if |parts| != 3 then None
    else
      match (ParseI64(parts[0]), ParseUnsigned(parts[1], U32_MAX), ParseUnsigned(parts[2], U32_MAX))
      case (Some(y), Some(m), Some(d)) => if IsDate(Civil(y, m, d)) then Some(Civil(y, m, d)) else None
      case _ => None
  }

  function ParseDate(text: string): Parsed {
    match ParseDateParts(text)
    case None => Err
    case Some(c) =>
      match DaysFromCivil(c)
      case None => Overflow
      case Some(days) => if InI32(days) then Ok(days) else Err
  }

  function ParseFraction(frac: string): Option<nat> {
    if frac == "" || !AllDigits(frac) || |frac| > 6 then None
    else ParseUnsigned(frac + Zeros(6 - |frac|), U32_MAX)
  }

  function ParseHms(hms: string): Option<Clock> {
    var parts := Split(hms, ':');
    if |parts| != 3 then None
    else
      match (ParseUnsigned(parts[0], U32_MAX), ParseUnsigned(parts[1], U32_MAX), ParseUnsigned(parts[2], U32_MAX))
      case (Some(h), Some(m), Some(s)) => if h > 23 || m > 59 || s > 59 then None else Some(Clock(h, m, s, 0))
      case _ => None
  }

  function ParseTimeParts(text: string): Option<Clock> {
    match SplitOnce(text, '.')
    case None => ParseHms(text)
    case Some((hms, frac)) =>
      match (ParseHms(hms), ParseFraction(frac))
      case (Some(k), Some(micro)) => Some(k.(micro := micro))
      case _ => None
  }

  function ClockMicros(k: Clock): int {
    (k.hour * 3600 + k.minute * 60 + k.second) * MICROS_PER_SEC + k.micro
  }

  function ParseTime(text: string): Parsed {
    match ParseTimeParts(text)
    case None => Err
    case Some(k) => Ok(ClockMicros(k))
  }

  /** The instant of a date and a time of day, with the checked arithmetic of `parse_timestamp`. */
  function Instant(c: Civil, k: Clock): Parsed {
    match DaysFromCivil(c)
    case None => Overflow
    case Some(days) =>
      if InI64(days * MICROS_PER_DAY) && InI64(days * MICROS_PER_DAY + ClockMicros(k))
      then Ok(days * MICROS_PER_DAY + ClockMicros(k))
      else Err
  }

  function Joined(date: Option<Civil>, time: Option<Clock>): Parsed {
    if date.Some? && time.Some? then Instant(date.value, time.value) else Err
  }

  function ParseTimestamp(text: string): Parsed {
    match FindEither(text, ' ', 'T')
    case None => Err
    case Some(at) => Joined(ParseDateParts(text[..at]), ParseTimeParts(text[at + 1..]))
  }

  // ---- dates -------------------------------------------------------------------------------

  lemma ThreeParts(a: string, b: string, c: string, sep: char)
    requires sep !in a && sep !in b && sep !in c
    ensures Split(a + [sep] + b + [sep] + c, sep) == [a, b, c]
  {
    assert a + [sep] + b + [sep] + c == a + [sep] + (b + [sep] + c);
    SplitHead(a, sep, b + [sep] + c);
    SplitHead(b, sep, c);
    SplitNone(c, sep);
  }

  /** The three printed fields of a date of year 0 or later, and what each reads as. */
  lemma DateFieldsRead(c: Civil)
    requires IsDate(c) && 0 <= c.year && InI64(c.year)
    ensures AllDigits(ZeroPadded(c.year, 4)) && AllDigits(ZeroPadded(c.month, 2)) && AllDigits(ZeroPadded(c.day, 2))
    ensures ParseI64(ZeroPadded(c.year, 4)) == Some(c.year)
    ensures ParseUnsigned(ZeroPadded(c.month, 2), U32_MAX) == Some(c.month)
    ensures ParseUnsigned(ZeroPadded(c.day, 2), U32_MAX) == Some(c.day)
  {
    PaddedDigits(c.year, 4);
    PaddedDigits(c.month, 2);
    PaddedDigits(c.day, 2);
    ParsePaddedI64(c.year, 4);
    ParsePadded(c.month, 2, U32_MAX);
    ParsePadded(c.day, 2, U32_MAX);
  }

  /** A date of year 0 or later is read back field by field. */
  lemma DatePartsRoundTrip(c: Civil)
    requires IsDate(c) && 0 <= c.year && InI64(c.year)
    ensures ParseDateParts(DateText(c)) == Some(c)
  {
    DateFieldsRead(c);
    ThreeParts(ZeroPadded(c.year, 4), ZeroPadded(c.month, 2), ZeroPadded(c.day, 2), '-');
  }

  lemma NegativePadded(n: int, w: nat) returns (body: string)
    requires n < 0
    ensures ZeroPadded(n, w) == "-" + body && AllDigits(body)
    ensures |body| >= 1 && Value(body) == -n
  {
    body := Filled(Digits(-n), if w > 0 then w - 1 else 0);
    DigitsValue(-n);
    FilledValue(Digits(-n), if w > 0 then w - 1 else 0);
  }

  lemma LeadingMinusSplits(y: string, m: string, d: string)
    requires '-' !in y && '-' !in m && '-' !in d
    ensures Split("-" + y + "-" + m + "-" + d, '-') == ["", y, m, d]
  {
    var tail := y + "-" + m + "-" + d;
    assert "-" + y + "-" + m + "-" + d == "" + ['-'] + tail;
    SplitHead("", '-', tail);
    ThreeParts(y, m, d, '-');
  }

  /** A date before year 0 is printed with a leading minus, which the parser takes for a separator. */
  lemma NegativeYearRefused(c: Civil)
    requires IsDate(c) && c.year < 0
    ensures ParseDateParts(DateText(c)) == None
  {
    var y := NegativePadded(c.year, 4);
    var m, d := ZeroPadded(c.month, 2), ZeroPadded(c.day, 2);
    PaddedDigits(c.month, 2);
    PaddedDigits(c.day, 2);
    LeadingMinusSplits(y, m, d);
  }

  lemma YearZeroStarts()
    ensures CivilFromDays(-719_528) == Civil(0, 1, 1)
  {
    MonthTable(0);
    assert DayCount(Civil(0, 1, 1)) == -719_528;
    DateIsRecovered(Civil(0, 1, 1));
  }

  lemma YearZero(days: int)
    ensures CivilFromDays(days).year >= 0 <==> days >= -719_528
  {
    YearZeroStarts();
    DateBounds(days);
    DateOrder(days, -719_528);
  }

  lemma DateBounds(days: int)
    ensures CivilFromDays(days).month >= 1 && CivilFromDays(days).day >= 1
  {
    CivilIsTheDate(days);
  }

  /** Echoing a result date back as a parameter gives the same date exactly from year 0 on;
      an earlier date is refused, although the API printed it. */
  lemma DateRoundTrip(days: int)
    requires InI32(days)
    ensures ParseDate(FormatDate(days)) == Ok(days) <==> days >= -719_528
    ensures days < -719_528 ==> ParseDate(FormatDate(days)) == Err
  {
    var c := CivilFromDays(days);
    CivilIsTheDate(days);
    YearZero(days);
    if days >= -719_528 {
      DateArithmeticFits(days);
      DatePartsRoundTrip(c);
      ParserCountFits(c);
    } else {
      NegativeYearRefused(c);
    }
  }

  /** No text at all is read as a date before year 0: the minus is the separator. */
  lemma YearsReadAreNotNegative(text: string)
    ensures ParseDateParts(text).Some? ==> ParseDateParts(text).value.year >= 0
  {
    PiecesHaveNo(text, '-');
    var parts := Split(text, '-');
    assert '-' !in parts[0];
  }

  /** Every date that came in as text goes out as text that reads the same. The dates of
      `DateRoundTrip` that do not are none the parser ever produced. */
  lemma ParsedDateEchoes(text: string)
    requires ParseDate(text).Ok?
    ensures ParseDate(FormatDate(ParseDate(text).value)) == ParseDate(text)
  {
    YearsReadAreNotNegative(text);
    var c, days := ParseDateParts(text).value, ParseDate(text).value;
    ParserCountAgrees(c);
    DateIsRecovered(c);
    YearZero(days);
    DateRoundTrip(days);
  }

  /** When the parser's `i64` day arithmetic does not fit, whatever the text: the year is accepted, and
      its count of days from 0000-03-01 is not an `i64`. */
  lemma DateOverflowsExactly(text: string)
    ensures ParseDate(text) == Overflow
      <==> ParseDateParts(text).Some? && !InI64(DayCount(ParseDateParts(text).value) + 719_468)
  {
    if ParseDateParts(text).Some? {
      YearsReadAreNotNegative(text);
      CountOverflows(ParseDateParts(text).value);
    }
  }

  lemma CountOverflows(c: Civil)
    requires IsDate(c) && c.year >= 0
    ensures DaysFromCivil(c) == None <==> !InI64(DayCount(c) + 719_468)
  {
    ParserCountExactly(c);
    DateIsRecovered(c);
    YearZero(DayCount(c));
  }

  /** It is reached by texts: a printed date far enough in the future is one. */
  lemma OverflowingText()
    ensures ParseDate(DateText(Civil(1_000_000_000_000_000_000, 1, 1))) == Overflow
  {
    DatePartsRoundTrip(Civil(1_000_000_000_000_000_000, 1, 1));
    ParserCountOverflows();
  }

  // ---- times of day ------------------------------------------------------------------------

  predicate IsClock(k: Clock) {
    0 <= k.hour <= 23 && 0 <= k.minute <= 59 && 0 <= k.second <= 59 && 0 <= k.micro < MICROS_PER_SEC
  }

  lemma SplitNonNegative(n: nat)
    ensures n == (n / 3600) * 3600 + ((n % 3600) / 60) * 60 + n % 60
    ensures (n % 3600) / 60 <= 59
  {
    assert (n % 3600) % 60 == n % 60;
  }

  lemma SplitSeconds(total: int)
    ensures var h, m, s := TruncDiv(total, 3600), TruncDiv(TruncRem(total, 3600), 60), TruncRem(total, 60);
      && h * 3600 + m * 60 + s == total
      && (total >= 0 ==> 0 <= h && 0 <= m <= 59 && 0 <= s <= 59)
      && (total < 0 ==> h < 0 || m < 0 || s < 0)
  {
    if total >= 0 {
      SplitNonNegative(total);
    } else {
      SplitNonNegative(-total);
    }
  }

  /** The printed fields always recombine to the value, and are a time of day exactly when the value
      is one. */
  lemma ClockRecombines(micros: int)
    ensures ClockMicros(ClockOf(micros)) == micros
    ensures IsClock(ClockOf(micros)) <==> 0 <= micros < MICROS_PER_DAY
    ensures micros < 0 ==> ClockOf(micros).hour < 0 || ClockOf(micros).minute < 0 || ClockOf(micros).second < 0
    ensures micros >= 0 ==> ClockOf(micros).hour >= 0 && 0 <= ClockOf(micros).minute <= 59 && 0 <= ClockOf(micros).second <= 59
  {
    SplitSeconds(micros / MICROS_PER_SEC);
  }

  lemma PaddedChars(n: int, w: nat, c: char)
    requires !IsDigit(c) && c != '-'
    ensures c !in ZeroPadded(n, w)
  {
  }

  lemma HmsTextSplits(k: Clock)
    ensures '.' !in HmsText(k)
    ensures Split(HmsText(k), ':') == [ZeroPadded(k.hour, 2), ZeroPadded(k.minute, 2), ZeroPadded(k.second, 2)]
  {
    PaddedChars(k.hour, 2, '.');
    PaddedChars(k.minute, 2, '.');
    PaddedChars(k.second, 2, '.');
    PaddedChars(k.hour, 2, ':');
    PaddedChars(k.minute, 2, ':');
    PaddedChars(k.second, 2, ':');
    ThreeParts(ZeroPadded(k.hour, 2), ZeroPadded(k.minute, 2), ZeroPadded(k.second, 2), ':');
  }

  /** What the time parser sees of a printed time: the three fields, then the fraction if any. */
  lemma TimeTextSplits(k: Clock)
    ensures SplitOnce(ClockText(k), '.')
         == if k.micro == 0 then None else Some((HmsText(k), ZeroPadded(k.micro, 6)))
  {
    HmsTextSplits(k);
    if k.micro == 0 {
      assert ClockText(k) == HmsText(k);
      SplitOnceNone(HmsText(k), '.');
    } else {
      assert ClockText(k) == HmsText(k) + ['.'] + ZeroPadded(k.micro, 6);
      SplitOnceAt(HmsText(k), '.', ZeroPadded(k.micro, 6));
    }
  }

  lemma HmsRoundTrip(k: Clock)
    requires IsClock(k)
    ensures ParseHms(HmsText(k)) == Some(k.(micro := 0))
  {
    HmsTextSplits(k);
    ParsePadded(k.hour, 2, U32_MAX);
    ParsePadded(k.minute, 2, U32_MAX);
    ParsePadded(k.second, 2, U32_MAX);
  }

  lemma HmsRefused(k: Clock)
    requires k.hour < 0 || k.minute < 0 || k.second < 0 || k.hour > 23
    ensures ParseHms(HmsText(k)) == None
  {
    HmsTextSplits(k);
    if k.hour < 0 {
      NegativeRefused(k.hour, 2);
    } else if k.minute < 0 {
      NegativeRefused(k.minute, 2);
    } else if k.second < 0 {
      NegativeRefused(k.second, 2);
    } else {
      LargeHourRefused(k.hour);
    }
  }

  lemma SixDigits(n: nat)
    requires n < MICROS_PER_SEC
    ensures |ZeroPadded(n, 6)| == 6 && AllDigits(ZeroPadded(n, 6)) && Value(ZeroPadded(n, 6)) == n
    ensures ZeroPadded(n, 6) == Fixed(n, 6)
  {
    SmallPowers();
    PaddedIsFixed(n, 6);
    FixedValue(n, 6);
  }

  lemma SmallPowers()
    ensures Pow10(2) == 100 && Pow10(4) == 10_000 && Pow10(6) == 1_000_000
  {
    assert Pow10(1) == 10;
    assert Pow10(3) == 1000;
    assert Pow10(5) == 100_000;
  }

  lemma FractionRoundTrip(n: nat)
    requires n < MICROS_PER_SEC
    ensures ParseFraction(ZeroPadded(n, 6)) == Some(n)
  {
    SixDigits(n);
    var f := ZeroPadded(n, 6);
    assert f + Zeros(6 - |f|) == f;
    ParsePadded(n, 6, U32_MAX);
  }

  lemma TimePartsRoundTrip(k: Clock)
    requires IsClock(k)
    ensures ParseTimeParts(ClockText(k)) == Some(k)
  {
    TimeTextSplits(k);
    HmsRoundTrip(k);
    if k.micro == 0 {
      assert ClockText(k) == HmsText(k);
    } else {
      FractionRoundTrip(k.micro);
    }
  }

  lemma TimePartsRefused(k: Clock)
    requires k.hour < 0 || k.minute < 0 || k.second < 0 || k.hour > 23
    ensures ParseTimeParts(ClockText(k)) == None
  {
    TimeTextSplits(k);
    HmsRefused(k);
    if k.micro == 0 {
      assert ClockText(k) == HmsText(k);
    }
  }

  /** An unsigned parser refuses every negative number as printed. */
  lemma NegativeRefused(n: int, w: nat)
    requires n < 0
    ensures ParseUnsigned(ZeroPadded(n, w), U32_MAX) == None
  {
    assert ZeroPadded(n, w)[0] == '-';
  }

  lemma LargeHourRefused(n: nat)
    requires n > 23
    ensures ParseUnsigned(ZeroPadded(n, 2), U32_MAX).Some? ==> ParseUnsigned(ZeroPadded(n, 2), U32_MAX).value > 23
  {
    PaddedDigits(n, 2);
  }

  /** A printed time is read back exactly when the stored value is a time of day; otherwise refused. */
  lemma TimeRoundTrip(micros: int)
    ensures ParseTime(FormatTime(micros)) == Ok(micros) <==> 0 <= micros < MICROS_PER_DAY
    ensures !(0 <= micros < MICROS_PER_DAY) ==> ParseTime(FormatTime(micros)) == Err
  {
    var k := ClockOf(micros);
    ClockRecombines(micros);
    if 0 <= micros < MICROS_PER_DAY {
      TimePartsRoundTrip(k);
    } else {
      TimePartsRefused(k);
    }
  }

  lemma FractionRead(frac: string)
    ensures ParseFraction(frac).Some? ==> ParseFraction(frac).value < MICROS_PER_SEC
  {
    if ParseFraction(frac).Some? {
      var six := frac + Zeros(6 - |frac|);
      assert six[0] == frac[0];
      ValueBelow(six);
      SmallPowers();
    }
  }

  /** Whatever text is read as a time is a time of day. */
  lemma TimesReadAreClocks(text: string)
    ensures ParseTimeParts(text).Some? ==> IsClock(ParseTimeParts(text).value)
  {
    match SplitOnce(text, '.')
    case None =>
    case Some((hms, frac)) => FractionRead(frac);
  }

  // Texts that nobody prints are read by the digits they have.

  lemma {:induction false} NumberReads(s: string)
    requires AllDigits(s) && s != ""
    ensures ParseI64(s) == (if InI64(Value(s)) then Some(Value(s)) else None)
    ensures ParseUnsigned(s, U32_MAX) == (if Value(s) <= U32_MAX then Some(Value(s)) else None)
  {
  }

  lemma {:induction false} DateOfParts(text: string, y: string, m: string, d: string)
    requires Split(text, '-') == [y, m, d]
    ensures ParseDateParts(text) == DateOf(ParseI64(y), ParseUnsigned(m, U32_MAX), ParseUnsigned(d, U32_MAX))
  {
  }

  function DateOf(y: Option<int>, m: Option<nat>, d: Option<nat>): Option<Civil> {
    if y.Some? && m.Some? && d.Some? && IsDate(Civil(y.value, m.value, d.value))
    then Some(Civil(y.value, m.value, d.value))
    else None
  }

  /** Three numbers read as a date, however many digits each has. */
  lemma {:induction false} DateReads(y: string, m: string, d: string)
    requires AllDigits(y) && AllDigits(m) && AllDigits(d) && y != "" && m != "" && d != ""
    ensures var c := Civil(Value(y), Value(m), Value(d));
      ParseDateParts(y + "-" + m + "-" + d) == if InI64(Value(y)) && IsDate(c) then Some(c) else None
  {
    ThreeParts(y, m, d, '-');
    DateOfParts(y + "-" + m + "-" + d, y, m, d);
    NumberReads(y);
    NumberReads(m);
    NumberReads(d);
  }

  lemma {:induction false} HmsReads(h: string, m: string, s: string)
    requires AllDigits(h) && AllDigits(m) && AllDigits(s) && h != "" && m != "" && s != ""
    ensures ParseHms(h + ":" + m + ":" + s)
         == if Value(h) <= 23 && Value(m) <= 59 && Value(s) <= 59 then Some(Clock(Value(h), Value(m), Value(s), 0)) else None
  {
    ThreeParts(h, m, s, ':');
  }

  /** A fraction of one to six digits is read as that many decimals of a second; anything else is refused. */
  lemma FractionReads(f: string)
    ensures ParseFraction(f) == if 1 <= |f| <= 6 && AllDigits(f) then Some(Value(f) * Pow10(6 - |f|)) else None
  {
    if 1 <= |f| <= 6 && AllDigits(f) {
      var six := f + Zeros(6 - |f|);
      ZerosShift(f, 6 - |f|);
      ValueBelow(six);
      SmallPowers();
      assert six[0] == f[0];
    }
  }

  lemma {:induction false} TimeOfParts(hms: string, f: string)
    requires '.' !in hms
    ensures ParseTimeParts(hms) == ParseHms(hms)
    ensures ParseTimeParts(hms + "." + f) == WithMicros(ParseHms(hms), ParseFraction(f))
  {
    SplitOnceNone(hms, '.');
    SplitOnceAt(hms, '.', f);
  }

  function WithMicros(k: Option<Clock>, micro: Option<nat>): Option<Clock> {
    if k.Some? && micro.Some? then Some(k.value.(micro := micro.value)) else None
  }

  /** What a time text is read as, with a fraction of any length and without. */
  lemma {:induction false} TimeReads(h: string, m: string, s: string, f: string)
    requires AllDigits(h) && AllDigits(m) && AllDigits(s) && h != "" && m != "" && s != ""
    ensures var k := Clock(Value(h), Value(m), Value(s), 0);
      && ParseTimeParts(h + ":" + m + ":" + s) == (if IsClock(k) then Some(k) else None)
      && ParseTimeParts(h + ":" + m + ":" + s + "." + f)
         == if IsClock(k) && 1 <= |f| <= 6 && AllDigits(f) then Some(k.(micro := Value(f) * Pow10(6 - |f|))) else None
  {
    var hms := h + ":" + m + ":" + s;
    assert '.' !in hms;
    TimeOfParts(hms, f);
    HmsReads(h, m, s);
    FractionReads(f);
  }

  /** Behind a printed date, with either separator, the time text is read the same way. */
  lemma {:induction false} TimestampReads(c: Civil, sep: char, t: string)
    requires IsDate(c) && 0 <= c.year && InI64(c.year) && (sep == 'T' || sep == ' ')
    ensures ParseTimestamp(DateText(c) + [sep] + t)
         == match ParseTimeParts(t) case Some(k) => Instant(c, k) case None => Err
  {
    DateTextChars(c, 'T');
    DateTextChars(c, ' ');
    ReadsAfterDate(DateText(c), sep, t);
    DatePartsRoundTrip(c);
  }

  lemma {:induction false} ReadsAfterDate(d: string, sep: char, t: string)
    requires 'T' !in d && ' ' !in d && (sep == 'T' || sep == ' ')
    ensures ParseTimestamp(d + [sep] + t) == Joined(ParseDateParts(d), ParseTimeParts(t))
  {
    var text := d + [sep] + t;
    SeparatorFound(d, sep, t);
    ReadAtCut(text, |d|, d, t);
  }

  lemma {:induction false} SeparatorFound(d: string, sep: char, t: string)
    requires 'T' !in d && ' ' !in d && (sep == 'T' || sep == ' ')
    ensures var text := d + [sep] + t;
      FindEither(text, ' ', 'T') == Some(|d|) && text[..|d|] == d && text[|d| + 1..] == t
  {
    var text := d + [sep] + t;
    assert text[|d|] == sep && forall i :: 0 <= i < |d| ==> text[i] == d[i];
  }

  lemma ClockWithinDay(k: Clock)
    requires IsClock(k)
    ensures 0 <= ClockMicros(k) < MICROS_PER_DAY
  {
  }

  /** Every time that came in as text goes out as text that reads the same. */
  lemma ParsedTimeEchoes(text: string)
    requires ParseTime(text).Ok?
    ensures ParseTime(FormatTime(ParseTime(text).value)) == ParseTime(text)
  {
    TimesReadAreClocks(text);
    ClockWithinDay(ParseTimeParts(text).value);
    TimeRoundTrip(ParseTime(text).value);
  }

  // ---- timestamps --------------------------------------------------------------------------

  /** The day of an `i64` microsecond count fits `i32`, so the cast in `format_timestamp` is exact. */
  lemma TimestampDayFits(micros: int)
    requires InI64(micros)
    ensures InI32(micros / MICROS_PER_DAY) && AsI32(micros / MICROS_PER_DAY) == micros / MICROS_PER_DAY
    ensures 0 <= micros % MICROS_PER_DAY < MICROS_PER_DAY
  {
  }

  lemma DateTextChars(c: Civil, ch: char)
    requires ch == 'T' || ch == ' '
    ensures ch !in DateText(c)
  {
    PaddedChars(c.year, 4, ch);
    PaddedChars(c.month, 2, ch);
    PaddedChars(c.day, 2, ch);
  }

  /** A printed timestamp is cut where it was joined. */
  lemma TimestampSplits(c: Civil, k: Clock)
    ensures var text := DateText(c) + "T" + ClockText(k);
      && FindEither(text, ' ', 'T') == Some(|DateText(c)|)
      && text[..|DateText(c)|] == DateText(c) && text[|DateText(c)| + 1..] == ClockText(k)
  {
    DateTextChars(c, 'T');
    DateTextChars(c, ' ');
    SeparatorFound(DateText(c), 'T', ClockText(k));
  }

  lemma TimestampRefused(c: Civil, k: Clock)
    requires IsDate(c) && c.year < 0
    ensures ParseTimestamp(DateText(c) + "T" + ClockText(k)) == Err
  {
    TimestampSplits(c, k);
    NegativeYearRefused(c);
  }

  /** Cut at its separator, a text is read part by part. */
  lemma {:induction false} ReadAtCut(text: string, at: nat, d: string, t: string)
    requires FindEither(text, ' ', 'T') == Some(at) && at < |text| && text[..at] == d && text[at + 1..] == t
    ensures ParseTimestamp(text) == Joined(ParseDateParts(d), ParseTimeParts(t))
  {
  }

  lemma PrintedIsRead(c: Civil, k: Clock)
    requires IsDate(c) && IsClock(k) && 0 <= c.year && InI64(c.year)
    ensures ParseTimestamp(DateText(c) + "T" + ClockText(k)) == Instant(c, k)
  {
    TimestampSplits(c, k);
    ReadAtCut(DateText(c) + "T" + ClockText(k), |DateText(c)|, DateText(c), ClockText(k));
    TimePartsRoundTrip(k);
    DatePartsRoundTrip(c);
  }

  lemma TimestampParsed(c: Civil, k: Clock)
    requires IsDate(c) && IsClock(k) && 0 <= c.year <= 10_000_000
    requires InI64(DayCount(c) * MICROS_PER_DAY) && InI64(DayCount(c) * MICROS_PER_DAY + ClockMicros(k))
    ensures ParseTimestamp(DateText(c) + "T" + ClockText(k)) == Ok(DayCount(c) * MICROS_PER_DAY + ClockMicros(k))
  {
    PrintedIsRead(c, k);
    ParserCountFits(c);
  }

  /** Echoing a result timestamp back as a parameter gives the same instant exactly from
      0000-01-01T00:00:00 on; an earlier one is refused. */
  lemma TimestampRoundTrip(micros: int)
    requires InI64(micros)
    ensures ParseTimestamp(FormatTimestamp(micros)) == Ok(micros) <==> micros >= -719_528 * MICROS_PER_DAY
    ensures micros < -719_528 * MICROS_PER_DAY ==> ParseTimestamp(FormatTimestamp(micros)) == Err
  {
    TimestampDayFits(micros);
    var day, tod := micros / MICROS_PER_DAY, micros % MICROS_PER_DAY;
    CivilIsTheDate(day);
    YearZero(day);
    DateArithmeticFits(day);
    ClockRecombines(tod);
    assert day * MICROS_PER_DAY + tod == micros;
    if day >= -719_528 {
      TimestampParsed(CivilFromDays(day), ClockOf(tod));
    } else {
      TimestampRefused(CivilFromDays(day), ClockOf(tod));
    }
  }

  /** What a timestamp text is made of, when it is accepted. */
  lemma TimestampReadParts(text: string) returns (c: Civil, k: Clock)
    requires ParseTimestamp(text).Ok?
    ensures IsDate(c) && c.year >= 0 && IsClock(k)
    ensures ParseTimestamp(text).value == DayCount(c) * MICROS_PER_DAY + ClockMicros(k) && InI64(ParseTimestamp(text).value)
  {
    var at := FindEither(text, ' ', 'T').value;
    DateRead(text[..at]);
    TimesReadAreClocks(text[at + 1..]);
    c, k := ParseDateParts(text[..at]).value, ParseTimeParts(text[at + 1..]).value;
  }

  /** The same arithmetic, and so the same condition, for a timestamp, cut into the texts of its date and
      its time. */
  lemma {:induction false} TimestampOverflowsExactly(text: string, at: nat, d: string, t: string)
    requires FindEither(text, ' ', 'T') == Some(at) && at < |text| && text[..at] == d && text[at + 1..] == t
    ensures ParseTimestamp(text) == Overflow <==> ParseTimeParts(t).Some? && ParseDate(d) == Overflow
  {
    ReadAtCut(text, at, d, t);
    InstantOverflows(d, ParseTimeParts(t));
  }

  lemma {:induction false} InstantOverflows(d: string, k: Option<Clock>)
    ensures Joined(ParseDateParts(d), k) == Overflow <==> k.Some? && ParseDate(d) == Overflow
  {
  }

  lemma DateRead(text: string)
    requires ParseDateParts(text).Some?
    ensures var c := ParseDateParts(text).value;
      IsDate(c) && c.year >= 0 && (DaysFromCivil(c).Some? ==> DaysFromCivil(c).value == DayCount(c))
  {
    YearsReadAreNotNegative(text);
    ParserCountAgrees(ParseDateParts(text).value);
  }

  /** Every timestamp that came in as text goes out as text that reads the same. */
  lemma ParsedTimestampEchoes(text: string)
    requires ParseTimestamp(text).Ok?
    ensures ParseTimestamp(FormatTimestamp(ParseTimestamp(text).value)) == ParseTimestamp(text)
  {
    var c, k := TimestampReadParts(text);
    DateIsRecovered(c);
    YearZero(DayCount(c));
    ClockWithinDay(k);
    TimestampRoundTrip(ParseTimestamp(text).value);
  }

  /** The shape of a printed timestamp of the years 0000 to 9999: `YYYY-MM-DDTHH:MM:SS`, with a point and six
      digits behind it when there is a fraction. */
  lemma TimestampShape(micros: int)
    requires InI64(micros) && 0 <= CivilFromDays(micros / MICROS_PER_DAY).year <= 9999
    ensures var s, micro := FormatTimestamp(micros), micros % MICROS_PER_SEC;
      && |s| == (if micro == 0 then 19 else 26)
      && s[4] == '-' && s[7] == '-' && s[10] == 'T' && s[13] == ':' && s[16] == ':'
      && (micro != 0 ==> s[19] == '.')
  {
    TimestampDayFits(micros);
    var day, tod := micros / MICROS_PER_DAY, micros % MICROS_PER_DAY;
    CivilIsTheDate(day);
    ClockRecombines(tod);
    var c, k := CivilFromDays(day), ClockOf(tod);
    DateShape(c);
    ClockShape(k);
    FractionOfDay(micros);
    ShapesJoin(DateText(c), ClockText(k), micros % MICROS_PER_SEC);
  }

  lemma FractionOfDay(micros: int)
    ensures (micros % MICROS_PER_DAY) % MICROS_PER_SEC == micros % MICROS_PER_SEC
  {
  }

  lemma ShapesJoin(d: string, t: string, micro: int)
    requires |d| == 10 && d[4] == '-' && d[7] == '-'
    requires |t| == (if micro == 0 then 8 else 15) && t[2] == ':' && t[5] == ':' && (micro != 0 ==> t[8] == '.')
    ensures var s := d + "T" + t;
      && |s| == (if micro == 0 then 19 else 26)
      && s[4] == '-' && s[7] == '-' && s[10] == 'T' && s[13] == ':' && s[16] == ':'
      && (micro != 0 ==> s[19] == '.')
  {
  }

  lemma DateShape(c: Civil)
    requires IsDate(c) && 0 <= c.year <= 9999
    ensures |DateText(c)| == 10 && DateText(c)[4] == '-' && DateText(c)[7] == '-'
  {
    SmallPowers();
    PaddedIsFixed(c.year, 4);
    TwoDigits(c.month);
    TwoDigits(c.day);
  }

  lemma ClockShape(k: Clock)
    requires IsClock(k)
    ensures var s := ClockText(k);
      && |s| == (if k.micro == 0 then 8 else 15) && s[2] == ':' && s[5] == ':' && (k.micro != 0 ==> s[8] == '.')
  {
    TwoDigits(k.hour);
    TwoDigits(k.minute);
    TwoDigits(k.second);
    SixDigits(k.micro);
    FieldsShape(ZeroPadded(k.hour, 2), ZeroPadded(k.minute, 2), ZeroPadded(k.second, 2), FractionText(k.micro));
  }

  lemma FieldsShape(h: string, m: string, s: string, f: string)
    requires |h| == 2 && |m| == 2 && |s| == 2
    ensures var t := h + ":" + m + ":" + s + f;
      |t| == 8 + |f| && t[2] == ':' && t[5] == ':' && (f != "" ==> t[8] == f[0])
  {
  }

  // ---- text identifies the instant ---------------------------------------------------------

  lemma PaddedSign(n: int, w: nat)
    ensures ZeroPadded(n, w) != "" && (ZeroPadded(n, w)[0] == '-' <==> n < 0)
  {
    if n >= 0 {
      PaddedDigits(n, w);
    }
  }

  lemma PaddedInjective(a: int, b: int, w: nat)
    requires ZeroPadded(a, w) == ZeroPadded(b, w)
    ensures a == b
  {
    PaddedSign(a, w);
    PaddedSign(b, w);
    if a < 0 {
      var x := NegativePadded(a, w);
      var y := NegativePadded(b, w);
      assert x == ("-" + x)[1..] == ("-" + y)[1..] == y;
    } else {
      PaddedDigits(a, w);
      PaddedDigits(b, w);
    }
  }

  lemma TwoDigits(n: nat)
    requires n < 100
    ensures ZeroPadded(n, 2) == Fixed(n, 2) && |ZeroPadded(n, 2)| == 2
  {
    SmallPowers();
    PaddedIsFixed(n, 2);
  }

  lemma FieldsFromTheBack(y: string, m: string, d: string, y': string, m': string, d': string)
    requires |m| == |m'| == |d| == |d'| == 2
    requires y + "-" + m + "-" + d == y' + "-" + m' + "-" + d'
    ensures y == y' && m == m' && d == d'
  {
    var s, s' := y + "-" + m + "-" + d, y' + "-" + m' + "-" + d';
    var n := |s|;
    assert d == s[n - 2..] == s'[n - 2..] == d';
    assert m == s[n - 5..n - 3] == s'[n - 5..n - 3] == m';
    assert y == s[..n - 6] == s'[..n - 6] == y';
  }

  lemma DateTextInjective(a: Civil, b: Civil)
    requires IsDate(a) && IsDate(b) && DateText(a) == DateText(b)
    ensures a == b
  {
    TwoDigits(a.month);
    TwoDigits(a.day);
    TwoDigits(b.month);
    TwoDigits(b.day);
    FieldsFromTheBack(ZeroPadded(a.year, 4), ZeroPadded(a.month, 2), ZeroPadded(a.day, 2),
                      ZeroPadded(b.year, 4), ZeroPadded(b.month, 2), ZeroPadded(b.day, 2));
    PaddedInjective(a.day, b.day, 2);
    PaddedInjective(a.month, b.month, 2);
    PaddedInjective(a.year, b.year, 4);
  }

  /** Different instants print differently, negative years included. */
  lemma TimestampInjective(a: int, b: int)
    requires InI64(a) && InI64(b) && FormatTimestamp(a) == FormatTimestamp(b)
    ensures a == b
  {
    TimestampDayFits(a);
    TimestampDayFits(b);
    var da, db := a / MICROS_PER_DAY, b / MICROS_PER_DAY;
    var ta, tb := a % MICROS_PER_DAY, b % MICROS_PER_DAY;
    TimestampSplits(CivilFromDays(da), ClockOf(ta));
    TimestampSplits(CivilFromDays(db), ClockOf(tb));
    CivilIsTheDate(da);
    CivilIsTheDate(db);
    DateTextInjective(CivilFromDays(da), CivilFromDays(db));
    ClockRecombines(ta);
    ClockRecombines(tb);
    TimePartsRoundTrip(ClockOf(ta));
    TimePartsRoundTrip(ClockOf(tb));
  }

  // ---- text order is time order ------------------------------------------------------------

  /** One fixed-width field and its separator decide first. */
  lemma FieldOrder(m: nat, n: nat, w: nat, c: char, x: string, y: string)
    requires m < Pow10(w) && n < Pow10(w)
    ensures LexLess(Fixed(m, w) + ([c] + x), Fixed(n, w) + ([c] + y)) <==> m < n || (m == n && LexLess(x, y))
  {
    FixedOrder(m, n, w);
    LexConcat(Fixed(m, w), [c] + x, Fixed(n, w), [c] + y);
    LexConcat([c], x, [c], y);
    LexIrreflexive([c]);
  }

  /** A missing fraction sorts before any fraction, and fractions sort by value. */
  lemma FractionOrder(m: nat, n: nat)
    requires m < MICROS_PER_SEC && n < MICROS_PER_SEC
    ensures LexLess(FractionText(m), FractionText(n)) <==> m < n
  {
    SmallPowers();
    SixDigits(m);
    SixDigits(n);
    if m != 0 && n != 0 {
      FixedOrder(m, n, 6);
      LexConcat(".", Fixed(m, 6), ".", Fixed(n, 6));
      LexIrreflexive(".");
    }
  }

  lemma SecondsOrder(m: nat, n: nat, f: nat, g: nat)
    requires m < 100 && n < 100 && f < MICROS_PER_SEC && g < MICROS_PER_SEC
    ensures LexLess(Fixed(m, 2) + FractionText(f), Fixed(n, 2) + FractionText(g)) <==> m < n || (m == n && f < g)
  {
    SmallPowers();
    FixedOrder(m, n, 2);
    LexConcat(Fixed(m, 2), FractionText(f), Fixed(n, 2), FractionText(g));
    FractionOrder(f, g);
  }

  lemma ClockTextFields(k: Clock)
    requires IsClock(k)
    ensures ClockText(k)
         == Fixed(k.hour, 2) + ([':'] + (Fixed(k.minute, 2) + ([':'] + (Fixed(k.second, 2) + FractionText(k.micro)))))
  {
    TwoDigits(k.hour);
    TwoDigits(k.minute);
    TwoDigits(k.second);
    FieldsRegroup(Fixed(k.hour, 2), Fixed(k.minute, 2), Fixed(k.second, 2), FractionText(k.micro));
  }

  lemma FieldsRegroup(h: string, m: string, s: string, f: string)
    ensures h + ":" + m + ":" + s + f == h + ([':'] + (m + ([':'] + (s + f))))
  {
  }

  lemma ClockOrder(a: Clock, b: Clock)
    requires IsClock(a) && IsClock(b)
    ensures LexLess(ClockText(a), ClockText(b)) <==> ClockMicros(a) < ClockMicros(b)
  {
    SmallPowers();
    ClockTextFields(a);
    ClockTextFields(b);
    var sa, sb := Fixed(a.second, 2) + FractionText(a.micro), Fixed(b.second, 2) + FractionText(b.micro);
    FieldOrder(a.hour, b.hour, 2, ':', Fixed(a.minute, 2) + ([':'] + sa), Fixed(b.minute, 2) + ([':'] + sb));
    FieldOrder(a.minute, b.minute, 2, ':', sa, sb);
    SecondsOrder(a.second, b.second, a.micro, b.micro);
  }

  lemma DateTextFields(c: Civil, rest: string)
    requires IsDate(c) && 0 <= c.year <= 9999
    ensures DateText(c) + "T" + rest
         == Fixed(c.year, 4) + (['-'] + (Fixed(c.month, 2) + (['-'] + (Fixed(c.day, 2) + (['T'] + rest)))))
  {
    SmallPowers();
    PaddedIsFixed(c.year, 4);
    TwoDigits(c.month);
    TwoDigits(c.day);
    Regroup(Fixed(c.year, 4), Fixed(c.month, 2), Fixed(c.day, 2), rest);
  }

  lemma Regroup(y: string, m: string, d: string, rest: string)
    ensures y + "-" + m + "-" + d + "T" + rest == y + (['-'] + (m + (['-'] + (d + (['T'] + rest)))))
  {
  }

  lemma DateTextOrder(a: Civil, x: string, b: Civil, y: string)
    requires IsDate(a) && IsDate(b) && 0 <= a.year <= 9999 && 0 <= b.year <= 9999
    ensures LexLess(DateText(a) + "T" + x, DateText(b) + "T" + y) <==> Earlier(a, b) || (a == b && LexLess(x, y))
  {
    SmallPowers();
    DateTextFields(a, x);
    DateTextFields(b, y);
    var da, db := Fixed(a.day, 2) + (['T'] + x), Fixed(b.day, 2) + (['T'] + y);
    FieldOrder(a.year, b.year, 4, '-', Fixed(a.month, 2) + (['-'] + da), Fixed(b.month, 2) + (['-'] + db));
    FieldOrder(a.month, b.month, 2, '-', da, db);
    FieldOrder(a.day, b.day, 2, 'T', x, y);
  }

  /** For years 0000 to 9999, sorting the texts sorts the instants, with and without a fraction. */
  lemma TimestampOrder(a: int, b: int)
    requires InI64(a) && InI64(b)
    requires 0 <= CivilFromDays(a / MICROS_PER_DAY).year <= 9999
    requires 0 <= CivilFromDays(b / MICROS_PER_DAY).year <= 9999
    ensures LexLess(FormatTimestamp(a), FormatTimestamp(b)) <==> a < b
  {
    TimestampDayFits(a);
    TimestampDayFits(b);
    var da, db := a / MICROS_PER_DAY, b / MICROS_PER_DAY;
    var ta, tb := a % MICROS_PER_DAY, b % MICROS_PER_DAY;
    CivilIsTheDate(da);
    CivilIsTheDate(db);
    DateOrder(da, db);
    ClockRecombines(ta);
    ClockRecombines(tb);
    DateTextOrder(CivilFromDays(da), ClockText(ClockOf(ta)), CivilFromDays(db), ClockText(ClockOf(tb)));
    ClockOrder(ClockOf(ta), ClockOf(tb));
    assert a < b <==> da < db || (da == db && ta < tb);
  }
}
