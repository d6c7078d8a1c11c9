/** Timestamps as VAST prints them: Howard Hinnant's `civil_from_days`
    (the proleptic Gregorian calendar computed with integers only), the
    split of a nanosecond time point into day and time of day, and the
    layout `YYYY-MM-DDTHH:MM:SS[.fff[fff[fff]]]`, the `full-date "T"
    partial-time` form of section 5.6 of RFC 3339 without a time offset. */
module Civil {

  // ---------------------------------------------------------------------
  // Integer helpers

  /** C++ `/` on signed integers: the quotient truncated toward zero.
      Dafny's `/` is Euclidean, which differs for a negative dividend. */
  function CDiv(a: int, b: int): (q: int)
    requires b > 0
    ensures a >= 0 ==> q >= 0 && 0 <= a - q * b < b
    ensures a < 0 ==> q <= 0 && -b < a - q * b <= 0
  {
    if a >= 0 then a / b else -((-a) / b)
  }

  /** The `(z >= 0 ? z : z - (b - 1)) / b` idiom, used with the era
      lengths in days (146097) and in years (400), rounds toward negative
      infinity: it is the floor quotient, Dafny's `/` for a positive
      divisor. */
  lemma FloorByShift(z: int, b: int)
    requires b == 146097 || b == 400
    ensures CDiv(if z >= 0 then z else z - (b - 1), b) == z / b
  {
    if b == 146097 {
      assert CDiv(if z >= 0 then z else z - 146096, 146097) == z / 146097;
    } else {
      assert CDiv(if z >= 0 then z else z - 399, 400) == z / 400;
    }
  }

  // ---------------------------------------------------------------------
  // civil_from_days and its inverse

  datatype Date = Date(year: int, month: int, day: int)

  /** `static_cast<unsigned short>`: the value modulo 2^16. */
  function UShort(x: int): (r: int)
    ensures 0 <= r < 0x1_0000
    ensures 0 <= x < 0x1_0000 ==> r == x
  {
    x % 0x1_0000
  }

  /** The era (400-year cycle beginning on 0000-03-01) of the shifted day
      count `z`. */
  function Era(z: int): (era: int)
    ensures 0 <= z - era * 146097 <= 146096
  {
    FloorByShift(z, 146097);
    CDiv(if z >= 0 then z else z - 146096, 146097)
  }

  /** The year of the era of a day of the era. */
  function YearOfEra(doe: int): (yoe: int)
    requires 0 <= doe <= 146096
    ensures 0 <= yoe <= 399
  {
    (doe - doe / 1460 + doe / 36524 - doe / 146096) / 365
  }

  /** The day of the (March-based) year. */
  function DayOfYear(doe: int): (doy: int)
    requires 0 <= doe <= 146096
    ensures 0 <= doy <= 365
  {
    var yoe := YearOfEra(doe);
    DayOfYearBound(doe);
    doe - (365 * yoe + yoe / 4 - yoe / 100)
  }

  /** A day of the era lies within the year of the era `YearOfEra` names,
      counted from the first day of that year. */
  lemma DayOfYearBound(doe: int)
    requires 0 <= doe <= 146096
    ensures var yoe := YearOfEra(doe); 0 <= doe - (365 * yoe + yoe / 4 - yoe / 100) <= 365
  {
    if doe < 146096 {
      DayOfYearInCentury(doe, doe / 36524);
    }
  }

  /** `DayOfYearBound` within the century `c` of the era (the last day of
      the era, a leap day, is the one day outside all four). */
  lemma DayOfYearInCentury(doe: int, c: int)
    requires 0 <= c <= 3 && 36524 * c <= doe < 36524 * c + 36524
    ensures var yoe := YearOfEra(doe); 0 <= doe - (365 * yoe + yoe / 4 - yoe / 100) <= 365
  {
    assert doe / 36524 == c && doe / 146096 == 0;
    var yoe := YearOfEra(doe);
    assert 100 * c <= yoe < 100 * c + 100;
    assert yoe / 100 == c;
  }

  /** The month index counted from March (0) to February (11). */
  function MonthIndex(doy: int): (mp: int)
    requires 0 <= doy <= 365
    ensures 0 <= mp <= 11
  {
    (5 * doy + 2) / 153
  }

  /** The first day of the year of month index `mp`, the inverse step of
      `MonthIndex`. */
  function MonthStart(mp: int): int {
    (153 * mp + 2) / 5
  }

  /** `from_days` before the casts: the civil date of `dp` days since
      1970-01-01. */
  function CivilFromDays(dp: int): (r: Date)
    ensures 1 <= r.month <= 12 && 1 <= r.day <= 31
  {
    var z := dp + 719468;
    var doe := DayOfEra(z);
    DateOf(Era(z), YearOfEra(doe), DayOfYear(doe))
  }

  /** The day of the era of the shifted day count `z`. */
  function DayOfEra(z: int): (doe: int)
    ensures 0 <= doe <= 146096
    ensures doe == z - Era(z) * 146097
  {
    z - Era(z) * 146097
  }

  /** The civil date of day `doy` (counted from March 1) of year `yoe` of
      era `era`. */
  function DateOf(era: int, yoe: int, doy: int): (r: Date)
    requires 0 <= doy <= 365
    ensures 1 <= r.month <= 12 && 1 <= r.day <= 31
  {
    var y := yoe + era * 400;
    var mp := MonthIndex(doy);
    var d := doy - MonthStart(mp) + 1;
    var m := if mp < 10 then mp + 3 else mp - 9;
    Date(y + (if m <= 2 then 1 else 0), m, d)
  }

  /** `from_days`: the civil date with the year cast to `unsigned short`. */
  function FromDays(dp: int): (r: Date)
    ensures 0 <= r.year < 0x1_0000
    ensures 1 <= r.month <= 12 && 1 <= r.day <= 31
    ensures r.month == CivilFromDays(dp).month && r.day == CivilFromDays(dp).day
    ensures 0 <= CivilFromDays(dp).year < 0x1_0000 ==> r == CivilFromDays(dp)
  {
    var c := CivilFromDays(dp);
    Date(UShort(c.year), c.month, c.day)
  }

  /** `days_from_civil`, the inverse algorithm of the same author: the day
      count since 1970-01-01 of a civil date. */
  function DaysFromCivil(date: Date): int {
    var y := if date.month <= 2 then date.year - 1 else date.year;
    var era := CDiv(if y >= 0 then y else y - 399, 400);
    var mp := if date.month > 2 then date.month - 3 else date.month + 9;
    DaysOfEra(era, y - era * 400, MonthStart(mp) + date.day - 1)
  }

  /** The day count since 1970-01-01 of day `doy` of year `yoe` of an era. */
  function DaysOfEra(era: int, yoe: int, doy: int): int {
    var doe := yoe * 365 + yoe / 4 - yoe / 100 + doy;
    era * 146097 + doe - 719468
  }

  /** Day 0 is the Unix epoch. */
  lemma Epoch()
    ensures FromDays(0) == Date(1970, 1, 1)
  {
    assert Era(719468) == 4;
    assert YearOfEra(135080) == 369;
    assert DayOfYear(135080) == 306;
    assert MonthIndex(306) == 10 && MonthStart(10) == 306;
  }

  /** The day before the epoch is the last day of 1969. */
  lemma BeforeEpoch()
    ensures FromDays(-1) == Date(1969, 12, 31)
  {
    assert Era(719467) == 4;
    assert YearOfEra(135079) == 369;
    assert DayOfYear(135079) == 305;
    assert MonthIndex(305) == 9 && MonthStart(9) == 275;
  }

  /** Day 789 is the first leap day after the epoch, 1972-02-29. */
  lemma FirstLeapDay()
    ensures FromDays(789) == Date(1972, 2, 29)
  {
    assert Era(720257) == 4;
    assert YearOfEra(135869) == 371;
    assert DayOfYear(135869) == 365;
    assert MonthIndex(365) == 11 && MonthStart(11) == 337;
  }

  /** Going back from the civil date gives the day count again, for every
      day count: `civil_from_days` loses nothing. */
  lemma DaysFromCivilFromDays(dp: int)
    ensures DaysFromCivil(CivilFromDays(dp)) == dp
  {
    var z := dp + 719468;
    var era := Era(z);
    var doe := DayOfEra(z);
    var yoe := YearOfEra(doe);
    var doy := DayOfYear(doe);
    assert CivilFromDays(dp) == DateOf(era, yoe, doy);
    DaysFromDate(era, yoe, doy);
    assert DaysOfEra(era, yoe, doy) == dp by {
      assert yoe * 365 + yoe / 4 - yoe / 100 + doy == doe;
    }
  }

  /** `days_from_civil` undoes the steps of `DateOf`. */
  lemma DaysFromDate(era: int, yoe: int, doy: int)
    requires 0 <= yoe <= 399 && 0 <= doy <= 365
    ensures DaysFromCivil(DateOf(era, yoe, doy)) == DaysOfEra(era, yoe, doy)
  {
    var date := DateOf(era, yoe, doy);
    var mp := MonthIndex(doy);
    var y := if date.month <= 2 then date.year - 1 else date.year;
    assert y == yoe + era * 400;
    YearsToEra(yoe, era);
    var mp' := if date.month > 2 then date.month - 3 else date.month + 9;
    assert mp' == mp;
    assert MonthStart(mp') + date.day - 1 == doy;
  }

  /** The era `days_from_civil` computes for a year of an era is that era. */
  lemma YearsToEra(yoe: int, era: int)
    requires 0 <= yoe <= 399
    ensures var y := yoe + era * 400;
      CDiv(if y >= 0 then y else y - 399, 400) == era && y - era * 400 == yoe
  {
    var y := yoe + era * 400;
    FloorByShift(y, 400);
  }

  /** Every day `format` handles without 64-bit overflow (1677-09-22 to
      2262-04-11) falls into a year of four digits. */
  lemma FourDigitYears(dp: int)
    requires -106751 <= dp <= 106751
    ensures 1600 <= CivilFromDays(dp).year <= 2400
  {
    var z := dp + 719468;
    assert 4 <= z / 146097 <= 5;
    FloorByShift(z, 146097);
  }

  // ---------------------------------------------------------------------
  // The time of day

  const NsPerSecond: nat := 1_000_000_000
  const NsPerMinute: nat := 60 * NsPerSecond
  const NsPerHour: nat := 60 * NsPerMinute
  const NsPerDay: nat := 24 * NsPerHour

  datatype TimeOfDay = TimeOfDay(hours: int, minutes: int, seconds: int, subSeconds: int)

  /** The split of `format`: `floor<days>(tp)` and the hours, minutes,
      seconds and nanoseconds since the start of that day.  The time of
      day is never negative, so the truncating `duration_cast` is Dafny's
      `/` there. */
  function SplitTime(ns: int): (r: (int, TimeOfDay))
    ensures 0 <= r.1.hours < 24 && 0 <= r.1.minutes < 60 && 0 <= r.1.seconds < 60
    ensures 0 <= r.1.subSeconds < NsPerSecond
    ensures ns == r.0 * NsPerDay + r.1.hours * NsPerHour + r.1.minutes * NsPerMinute
                  + r.1.seconds * NsPerSecond + r.1.subSeconds
  {
    var sd := ns / NsPerDay;
    var t := ns - sd * NsPerDay;
    var h := t / NsPerHour;
    var m := (t - h * NsPerHour) / NsPerMinute;
    var s := (t - h * NsPerHour - m * NsPerMinute) / NsPerSecond;
    var sub := t - h * NsPerHour - m * NsPerMinute - s * NsPerSecond;
    (sd, TimeOfDay(h, m, s, sub))
  }

  /** The first nanosecond count whose day `format` can convert back to
      nanoseconds: `sd - time{}` and `tp - sd` are signed 64-bit
      nanosecond counts, and `sd` may not start before `-2^63`. */
  const MinSafeNs: int := -106751 * NsPerDay

  /** The day `format` prints for a time point from `MinSafeNs` to the top
      of the signed 64-bit range is within the range `FourDigitYears`
      covers, and the start of that day is a signed 64-bit count. */
  lemma Int64Days(ns: int)
    requires MinSafeNs <= ns < 0x8000_0000_0000_0000
    ensures -106751 <= SplitTime(ns).0 <= 106751
    ensures -0x8000_0000_0000_0000 <= SplitTime(ns).0 * NsPerDay < 0x8000_0000_0000_0000
  {
  }

  /** Below `MinSafeNs` the start of the day is earlier than `-2^63`
      nanoseconds, so `sd - time{}` overflows there. */
  lemma DayStartOverflows(ns: int)
    requires -0x8000_0000_0000_0000 <= ns < MinSafeNs
    ensures SplitTime(ns).0 == -106752
    ensures SplitTime(ns).0 * NsPerDay < -0x8000_0000_0000_0000
  {
  }

  // ---------------------------------------------------------------------
  // Decimal text

  predicate IsDigit(c: char) {
    '0' <= c <= '9'
  }

  predicate AllDigits(s: seq<char>) {
    forall i :: 0 <= i < |s| ==> IsDigit(s[i])
  }

  function DigitChar(d: int): (c: char)
    requires 0 <= d <= 9
    ensures IsDigit(c)
  {
    ('0' as int + d) as char
  }

  /** The decimal value of a string of digits. */
  function Value(s: seq<char>): nat
    requires AllDigits(s)
  {
    if s == [] then 0 else Value(s[..|s| - 1]) * 10 + (s[|s| - 1] as int - '0' as int)
  }

  /** The decimal digits of `n`, without leading zeros. */
  function Digits(n: nat): (s: seq<char>)
    ensures 1 <= |s| && AllDigits(s)
  {
    if n < 10 then [DigitChar(n)] else Digits(n / 10) + [DigitChar(n % 10)]
  }

  function Zeros(k: nat): (s: seq<char>)
    ensures |s| == k && AllDigits(s)
  {
    seq(k, _ => '0')
  }

  /** `{:0w}` for a non-negative value: its digits, padded with leading
      zeros to at least `width` characters. */
  function Pad(n: nat, width: nat): (s: seq<char>)
    ensures AllDigits(s)
    ensures |s| == if width <= |Digits(n)| then |Digits(n)| else width
  {
    Zeros(if width <= |Digits(n)| then 0 else width - |Digits(n)|) + Digits(n)
  }

  lemma {:induction false} ValueDigits(n: nat)
    ensures Value(Digits(n)) == n
  {
    if n >= 10 {
      ValueDigits(n / 10);
      var s := Digits(n);
      assert s[..|s| - 1] == Digits(n / 10);
    }
  }

  /** A larger value has at least as many digits. */
  lemma {:induction false} DigitsMonotone(a: nat, b: nat)
    requires a <= b
    ensures |Digits(a)| <= |Digits(b)|
  {
    if a >= 10 {
      DigitsMonotone(a / 10, b / 10);
    }
  }

  /** A value of at least `10^k` has more than `k` digits. */
  lemma {:induction false} DigitsAbove(n: nat, k: nat)
    requires n >= Pow10(k)
    ensures |Digits(n)| > k
  {
    if k > 0 {
      DigitsAbove(n / 10, k - 1);
    }
  }

  /** Leading zeros do not change the value. */
  lemma {:induction false} ValueLeadingZeros(k: nat, s: seq<char>)
    requires AllDigits(s)
    ensures AllDigits(Zeros(k) + s) && Value(Zeros(k) + s) == Value(s)
    decreases |s|
  {
    var t := Zeros(k) + s;
    assert AllDigits(t) by {
      forall i | 0 <= i < |t| ensures IsDigit(t[i]) {
        if i >= k {
          assert t[i] == s[i - k];
        }
      }
    }
    if s == [] {
      assert t == Zeros(k);
      ValueZeros(k);
    } else {
      assert t[..|t| - 1] == Zeros(k) + s[..|s| - 1];
      assert t[|t| - 1] == s[|s| - 1];
      ValueLeadingZeros(k, s[..|s| - 1]);
    }
  }

  lemma {:induction false} ValueZeros(k: nat)
    ensures Value(Zeros(k)) == 0
  {
    if k > 0 {
      assert Zeros(k)[..k - 1] == Zeros(k - 1);
      ValueZeros(k - 1);
    }
  }

  /** The padded text reads back as the value it prints. */
  lemma PadValue(n: nat, width: nat)
    ensures Value(Pad(n, width)) == n
  {
    ValueDigits(n);
    ValueLeadingZeros(if width <= |Digits(n)| then 0 else width - |Digits(n)|, Digits(n));
  }

  /** A value below `10^k` padded to width `k` takes exactly `k`
      characters. */
  lemma PadExact(n: nat, k: nat)
    requires 1 <= k <= 9 && n < Pow10(k)
    ensures |Pad(n, k)| == k
  {
    DigitsOfPow10(k);
    DigitsMonotone(n, Pow10(k) - 1);
  }

  function Pow10(k: nat): (p: nat)
    ensures p >= 1
  {
    if k == 0 then 1 else 10 * Pow10(k - 1)
  }

  lemma {:induction false} DigitsOfPow10(k: nat)
    requires k >= 1
    ensures |Digits(Pow10(k) - 1)| == k
  {
    if k > 1 {
      DigitsOfPow10(k - 1);
      assert (Pow10(k) - 1) / 10 == Pow10(k - 1) - 1;
    }
  }

  // ---------------------------------------------------------------------
  // The sub-second part and the whole timestamp

  /** The digits printed for a non-zero sub-second part: milliseconds when
      they are exact, else microseconds when they are exact, else
      nanoseconds. */
  function FractionDigits(sub: int): seq<char>
    requires 0 < sub < NsPerSecond
  {
    if sub % 1_000_000 == 0 then Pad(sub / 1_000_000, 3)
    else if sub % 1_000 == 0 then Pad(sub / 1_000, 6)
    else Pad(sub, 9)
  }

  /** The fraction, `.` and 3, 6 or 9 digits, or nothing for zero. */
  function Fraction(sub: int): seq<char>
    requires 0 <= sub < NsPerSecond
  {
    if sub == 0 then [] else "." + FractionDigits(sub)
  }

  /** The fraction has 3, 6 or 9 digits, the fewest that represent the
      sub-second part exactly, and it reads back as that part. */
  lemma FractionRoundTrip(sub: int)
    requires 0 < sub < NsPerSecond
    ensures var f := FractionDigits(sub);
      && (|f| == 3 || |f| == 6 || |f| == 9)
      && AllDigits(f)
      && Value(f) * Pow10(9 - |f|) == sub
      && (|f| > 3 ==> sub % 1_000_000 != 0)
      && (|f| > 6 ==> sub % 1_000 != 0)
  {
    assert Pow10(3) == 1000 && Pow10(6) == 1_000_000 && Pow10(9) == 1_000_000_000;
    var f := FractionDigits(sub);
    if sub % 1_000_000 == 0 {
      var q := sub / 1_000_000;
      FractionField(q, 3, 6);
      assert f == Pad(q, 3) && q * 1_000_000 == sub;
    } else if sub % 1_000 == 0 {
      var q := sub / 1_000;
      FractionField(q, 6, 3);
      assert f == Pad(q, 6) && q * 1_000 == sub;
    } else {
      FractionField(sub, 9, 0);
      assert f == Pad(sub, 9);
    }
  }

  /** A sub-second field of `width` digits, with `scale` more digits
      implied, prints with exactly `width` digits and reads back. */
  lemma FractionField(q: nat, width: nat, scale: nat)
    requires 1 <= width && width + scale == 9 && q < Pow10(width)
    ensures |Pad(q, width)| == width && AllDigits(Pad(q, width))
    ensures Value(Pad(q, width)) * Pow10(9 - width) == q * Pow10(scale)
  {
    PadExact(q, width);
    PadValue(q, width);
  }

  /** The time point `format` prints for `ns` nanoseconds since the epoch. */
  function Timestamp(ns: int): seq<char> {
    var (sd, t) := SplitTime(ns);
    var date := FromDays(sd);
    Pad(date.year, 2) + "-" + Pad(date.month, 2) + "-" + Pad(date.day, 2) + "T"
      + Pad(t.hours, 2) + ":" + Pad(t.minutes, 2) + ":" + Pad(t.seconds, 2)
      + Fraction(t.subSeconds)
  }

  /** Where the separators and fields of a timestamp lie, given fields of
      the widths `format` prints. */
  lemma LayoutPositions(y: seq<char>, mo: seq<char>, d: seq<char>, h: seq<char>,
                        mi: seq<char>, se: seq<char>, f: seq<char>)
    requires |y| == 4 && |mo| == 2 && |d| == 2 && |h| == 2 && |mi| == 2 && |se| == 2
    ensures var s := y + "-" + mo + "-" + d + "T" + h + ":" + mi + ":" + se + f;
      && |s| == 19 + |f|
      && s[4] == '-' && s[7] == '-' && s[10] == 'T' && s[13] == ':' && s[16] == ':'
      && s[0..4] == y && s[5..7] == mo && s[8..10] == d
      && s[11..13] == h && s[14..16] == mi && s[17..19] == se && s[19..] == f
  {
    var s := y + "-" + mo + "-" + d + "T" + h + ":" + mi + ":" + se + f;
    var t := y + "-" + mo + "-" + d + "T" + h + ":" + mi + ":" + se;
    assert s == t + f && |t| == 19;
    assert s[..19] == t && s[19..] == f;
    assert t == y + ['-'] + mo + ['-'] + d + ['T'] + h + [':'] + mi + [':'] + se;
    forall i | 0 <= i < 4 ensures t[i] == y[i] { }
    forall i | 0 <= i < 2 ensures t[5 + i] == mo[i] && t[8 + i] == d[i] && t[11 + i] == h[i]
                              && t[14 + i] == mi[i] && t[17 + i] == se[i] { }
    assert t[0..4] == y && t[5..7] == mo && t[8..10] == d;
    assert t[11..13] == h && t[14..16] == mi && t[17..19] == se;
  }

  /** A year of four digits is printed with four digits by `{:02}`. */
  lemma FourDigitPad(year: nat)
    requires 1000 <= year <= 9999
    ensures |Pad(year, 2)| == 4
  {
    assert Pow10(3) == 1000 && Pow10(4) == 10000;
    DigitsAbove(year, 3);
    PadExact(year, 4);
  }

  /** For every signed 64-bit time point from `MinSafeNs` on, the
      timestamp has the fixed
      `YYYY-MM-DDTHH:MM:SS` layout, every field reads back as the
      calendar date and time of day, and the fraction follows. */
  lemma TimestampLayout(ns: int)
    requires MinSafeNs <= ns < 0x8000_0000_0000_0000
    ensures var s := Timestamp(ns);
      var (sd, t) := SplitTime(ns);
      var date := CivilFromDays(sd);
      && |s| >= 19
      && s[4] == '-' && s[7] == '-' && s[10] == 'T' && s[13] == ':' && s[16] == ':'
      && AllDigits(s[0..4]) && Value(s[0..4]) == date.year
      && AllDigits(s[5..7]) && Value(s[5..7]) == date.month
      && AllDigits(s[8..10]) && Value(s[8..10]) == date.day
      && AllDigits(s[11..13]) && Value(s[11..13]) == t.hours
      && AllDigits(s[14..16]) && Value(s[14..16]) == t.minutes
      && AllDigits(s[17..19]) && Value(s[17..19]) == t.seconds
      && s[19..] == Fraction(t.subSeconds)
  {
    var (sd, t) := SplitTime(ns);
    Int64Days(ns);
    FourDigitYears(sd);
    var date := FromDays(sd);
    assert date == CivilFromDays(sd);
    assert Pow10(2) == 100;
    FourDigitPad(date.year);
    PadExact(date.month, 2);
    PadExact(date.day, 2);
    PadExact(t.hours, 2);
    PadExact(t.minutes, 2);
    PadExact(t.seconds, 2);
    PadValue(date.year, 2);
    PadValue(date.month, 2);
    PadValue(date.day, 2);
    PadValue(t.hours, 2);
    PadValue(t.minutes, 2);
    PadValue(t.seconds, 2);
    LayoutPositions(Pad(date.year, 2), Pad(date.month, 2), Pad(date.day, 2),
                    Pad(t.hours, 2), Pad(t.minutes, 2), Pad(t.seconds, 2), Fraction(t.subSeconds));
  }
}
