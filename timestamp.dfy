/**
  The optional timestamp at the start of an nsdebuglog line, written
  `YYYY/MM/DD HH:MM:SS` with an optional `.` and fraction. A prefix of that shape is
  read with the format with fractional seconds first and then without; a date-time
  is represented by its count of microseconds since 0001-01-01 00:00:00, which is
  ordered exactly as the date-times are (ToMicrosOrder).
 */
module Timestamp {

  import opened Wrappers
  import opened Text

  predicate IsLeap(y: int) {
    y % 4 == 0 && (y % 100 != 0 || y % 400 == 0)
  }

  function YearLength(y: int): nat {
    if IsLeap(y) then 366 else 365
  }

  function DaysInMonth(y: int, m: int): nat
    requires 1 <= m <= 12
  {
    if m == 2 then (if IsLeap(y) then 29 else 28)
    else if m == 4 || m == 6 || m == 9 || m == 11 then 30
    else 31
  }

  /** Days of year `y` before the first of month `m`. */
  function DaysBeforeMonth(y: int, m: int): nat
    requires 1 <= m <= 12
  {
    if m == 1 then 0 else DaysBeforeMonth(y, m - 1) + DaysInMonth(y, m - 1)
  }

  /** Days from 0001-01-01 to the first of January of year `y` (proleptic Gregorian). */
  function DaysBeforeYear(y: int): int
    requires y >= 1
  {
    var p := y - 1;
    p * 365 + p / 4 - p / 100 + p / 400
  }

  datatype DateTime = DateTime(year: int, month: int, day: int, hour: int, minute: int, second: int, micro: int)

  /** The date-times the two formats can produce: a real calendar day and clock time. */
  predicate Valid(d: DateTime) {
    && 1 <= d.year <= 9999
    && 1 <= d.month <= 12
    && 1 <= d.day <= DaysInMonth(d.year, d.month)
    && 0 <= d.hour <= 23
    && 0 <= d.minute <= 59
    && 0 <= d.second <= 59
    && 0 <= d.micro < 1000000
  }

  function DayNumber(d: DateTime): int
    requires Valid(d)
  {
    DaysBeforeYear(d.year) + DaysBeforeMonth(d.year, d.month) + d.day - 1
  }

  /** Microseconds since 0001-01-01 00:00:00. */
  function ToMicros(d: DateTime): int
    requires Valid(d)
  {
    (((DayNumber(d) * 24 + d.hour) * 60 + d.minute) * 60 + d.second) * 1000000 + d.micro
  }

  /** Chronological order: lexicographic on the seven fields. */
  predicate Precedes(a: DateTime, b: DateTime) {
    || a.year < b.year
    || (a.year == b.year && a.month < b.month)
    || (a.year == b.year && a.month == b.month && a.day < b.day)
    || (a.year == b.year && a.month == b.month && a.day == b.day && a.hour < b.hour)
    || (a.year == b.year && a.month == b.month && a.day == b.day && a.hour == b.hour && a.minute < b.minute)
    || (a.year == b.year && a.month == b.month && a.day == b.day && a.hour == b.hour && a.minute == b.minute
        && a.second < b.second)
    || (a.year == b.year && a.month == b.month && a.day == b.day && a.hour == b.hour && a.minute == b.minute
        && a.second == b.second && a.micro < b.micro)
  }

  lemma DaysBeforeYearStep(y: int)
    requires y >= 1
    ensures DaysBeforeYear(y + 1) == DaysBeforeYear(y) + YearLength(y)
  {
    DivStep(y, 4);
    DivStep(y, 100);
    DivStep(y, 400);
    var d4 := if y % 4 == 0 then 1 else 0;
    var d100 := if y % 100 == 0 then 1 else 0;
    var d400 := if y % 400 == 0 then 1 else 0;
    assert DaysBeforeYear(y + 1) == DaysBeforeYear(y) + 365 + d4 - d100 + d400;
    LeapCount(y);
  }

  /** The leap-year rule as a count of the multiples of 4, 100 and 400 that `y` is. */
  lemma LeapCount(y: int)
    ensures YearLength(y) == 365 + (if y % 4 == 0 then 1 else 0) - (if y % 100 == 0 then 1 else 0)
                                 + (if y % 400 == 0 then 1 else 0)
  {
    if y % 400 == 0 {
      CenturyOf400(y);
    }
    if y % 100 == 0 {
      FourOfCentury(y);
    }
  }

  /** A multiple of 400 is a multiple of 100. */
  lemma CenturyOf400(y: int)
    requires y % 400 == 0
    ensures y % 100 == 0
  {
    var q := y / 400;
    assert y == 100 * (4 * q);
  }

  /** A multiple of 100 is a multiple of 4. */
  lemma FourOfCentury(y: int)
    requires y % 100 == 0
    ensures y % 4 == 0
  {
    var q := y / 100;
    assert y == 4 * (25 * q);
  }

  /** Reaching year `y` crosses a multiple of `k` exactly when `y` is one. */
  lemma DivStep(y: nat, k: nat)
    requires y >= 1 && (k == 4 || k == 100 || k == 400)
    ensures y / k == (y - 1) / k + (if y % k == 0 then 1 else 0)
  {
    if k == 4 {
      assert y / 4 == (y - 1) / 4 + (if y % 4 == 0 then 1 else 0);
    } else if k == 100 {
      assert y / 100 == (y - 1) / 100 + (if y % 100 == 0 then 1 else 0);
    } else {
      assert y / 400 == (y - 1) / 400 + (if y % 400 == 0 then 1 else 0);
    }
  }

  lemma {:induction false} DaysBeforeYearGrows(y1: int, y2: int)
    requires 1 <= y1 < y2
    ensures DaysBeforeYear(y1) + YearLength(y1) <= DaysBeforeYear(y2)
    decreases y2 - y1
  {
    DaysBeforeYearStep(y1);
    if y1 + 1 < y2 {
      DaysBeforeYearGrows(y1 + 1, y2);
    }
  }

  lemma {:induction false} DaysBeforeMonthGrows(y: int, m1: int, m2: int)
    requires 1 <= m1 < m2 <= 12
    ensures DaysBeforeMonth(y, m1) + DaysInMonth(y, m1) <= DaysBeforeMonth(y, m2)
    decreases m2 - m1
  {
    if m1 + 1 < m2 {
      DaysBeforeMonthGrows(y, m1 + 1, m2);
    }
  }

  lemma DaysBeforeDecember(y: int)
    ensures DaysBeforeMonth(y, 12) + 31 == YearLength(y)
  {
    assert DaysBeforeMonth(y, 2) == 31;
    assert DaysBeforeMonth(y, 3) == 31 + DaysInMonth(y, 2);
    assert DaysBeforeMonth(y, 4) == 62 + DaysInMonth(y, 2);
    assert DaysBeforeMonth(y, 5) == 92 + DaysInMonth(y, 2);
    assert DaysBeforeMonth(y, 6) == 123 + DaysInMonth(y, 2);
    assert DaysBeforeMonth(y, 7) == 153 + DaysInMonth(y, 2);
    assert DaysBeforeMonth(y, 8) == 184 + DaysInMonth(y, 2);
    assert DaysBeforeMonth(y, 9) == 215 + DaysInMonth(y, 2);
    assert DaysBeforeMonth(y, 10) == 245 + DaysInMonth(y, 2);
    assert DaysBeforeMonth(y, 11) == 276 + DaysInMonth(y, 2);
  }

  /** The day of year of a valid date lies within its year. */
  lemma DayInYear(d: DateTime)
    requires Valid(d)
    ensures 0 <= DaysBeforeMonth(d.year, d.month) + d.day - 1 < YearLength(d.year)
  {
    DaysBeforeDecember(d.year);
    if d.month < 12 {
      DaysBeforeMonthGrows(d.year, d.month, 12);
    }
  }

  /** Day numbers are ordered like (year, month, day). */
  lemma DayNumberOrder(a: DateTime, b: DateTime)
    requires Valid(a) && Valid(b)
    requires a.year < b.year || (a.year == b.year && a.month < b.month)
          || (a.year == b.year && a.month == b.month && a.day < b.day)
    ensures DayNumber(a) < DayNumber(b)
  {
    DayInYear(a);
    if a.year < b.year {
      DaysBeforeYearGrows(a.year, b.year);
    } else if a.month < b.month {
      DaysBeforeMonthGrows(a.year, a.month, b.month);
    }
  }

  /** Microsecond counts are ordered exactly as the date-times they stand for. */
  lemma ToMicrosOrder(a: DateTime, b: DateTime)
    requires Valid(a) && Valid(b)
    ensures Precedes(a, b) <==> ToMicros(a) < ToMicros(b)
    ensures a == b <==> ToMicros(a) == ToMicros(b)
  {
    var sa := ((a.hour * 60 + a.minute) * 60 + a.second) * 1000000 + a.micro;
    var sb := ((b.hour * 60 + b.minute) * 60 + b.second) * 1000000 + b.micro;
    assert ToMicros(a) == DayNumber(a) * 86400000000 + sa;
    assert ToMicros(b) == DayNumber(b) * 86400000000 + sb;
    assert 0 <= sa < 86400000000 && 0 <= sb < 86400000000;
    var sameDay := a.year == b.year && a.month == b.month && a.day == b.day;
    if sameDay {
      assert DayNumber(a) == DayNumber(b);
    } else if a.year < b.year || (a.year == b.year && a.month < b.month)
           || (a.year == b.year && a.month == b.month && a.day < b.day) {
      DayNumberOrder(a, b);
    } else {
      DayNumberOrder(b, a);
    }
  }

  /** The fields of a timestamp-shaped line start; `fraction` holds the digits after the dot, if any. */
  datatype Prefix = Prefix(year: nat, month: nat, day: nat, hour: nat, minute: nat, second: nat, fraction: string)

  predicate DigitsAt(s: string, i: nat, n: nat) {
    i + n <= |s| && AllDigits(s[i..i + n])
  }

  /**
    The leading `YYYY/MM/DD HH:MM:SS` (digits in every letter position) with an optional
    `.` followed by a greedy run of digits; a `.` not followed by a digit is not part of it.
   */
  function MatchPrefix(line: string): (r: Option<Prefix>)
    ensures r.Some? ==> AllDigits(r.value.fraction) && r.value.year < 10000
  {
    if && |line| >= 19
       && DigitsAt(line, 0, 4) && line[4] == '/' && DigitsAt(line, 5, 2) && line[7] == '/'
       && DigitsAt(line, 8, 2) && line[10] == ' ' && DigitsAt(line, 11, 2) && line[13] == ':'
       && DigitsAt(line, 14, 2) && line[16] == ':' && DigitsAt(line, 17, 2)
    then
      var fraction :=
        if |line| > 20 && line[19] == '.' && IsDigit(line[20]) then line[20..Span(line, 20, Digit)] else [];
      assert AllDigits(fraction) by {
        if |line| > 20 {
          SpanInside(line, 20, Digit);
        }
      }
      Some(Prefix(NatOf(line[0..4]), NatOf(line[5..7]), NatOf(line[8..10]),
                  NatOf(line[11..13]), NatOf(line[14..16]), NatOf(line[17..19]), fraction))
    else None
  }

  /** The calendar and clock ranges both formats accept (seconds 60 and 61 are refused by the date-time constructor). */
  predicate FieldsValid(p: Prefix) {
    && 1 <= p.year <= 9999
    && 1 <= p.month <= 12
    && 1 <= p.day <= DaysInMonth(p.year, p.month)
    && p.hour <= 23 && p.minute <= 59 && p.second <= 59
  }

  /** `n` with `j` decimal zeros written after it, that is `n * 10^j`. */
  function Shift(n: nat, j: nat): nat {
    if j == 0 then n else 10 * Shift(n, j - 1)
  }

  lemma {:induction false} ShiftBound(n: nat, k: nat, j: nat)
    requires n < Pow10(k)
    ensures Shift(n, j) < Pow10(k + j)
    decreases j
  {
    if j > 0 {
      ShiftBound(n, k, j - 1);
    }
  }

  /** The microseconds a run of at most six fraction digits stands for: the digits scaled to six places. */
  function FractionMicros(f: string): nat
    requires AllDigits(f) && |f| <= 6
  {
    Shift(NatOf(f), 6 - |f|)
  }

  /** The date-time a matched prefix names, its fraction read as microseconds. */
  function PrefixTime(p: Prefix): DateTime
    requires AllDigits(p.fraction) && |p.fraction| <= 6
  {
    DateTime(p.year, p.month, p.day, p.hour, p.minute, p.second, FractionMicros(p.fraction))
  }

  /** At most six fraction digits stand for less than a second. */
  lemma FractionScale(f: string)
    requires AllDigits(f) && |f| <= 6
    ensures FractionMicros(f) < 1000000
  {
    ShiftBound(NatOf(f), |f|, 6 - |f|);
    assert Pow10(6) == 1000000;
  }

  /** The format with fractional seconds: one to six digits, scaled to microseconds. */
  function WithFraction(p: Prefix): (r: Option<DateTime>)
    requires AllDigits(p.fraction)
    ensures r.Some? ==> Valid(r.value)
  {
    if 1 <= |p.fraction| <= 6 && FieldsValid(p) then
      FractionScale(p.fraction);
      Some(PrefixTime(p))
    else None
  }

  /** The format without fractional seconds: nothing may follow the seconds. */
  function WithoutFraction(p: Prefix): (r: Option<DateTime>)
    ensures r.Some? ==> Valid(r.value)
  {
    if p.fraction == [] && FieldsValid(p) then
      Some(DateTime(p.year, p.month, p.day, p.hour, p.minute, p.second, 0))
    else None
  }

  /** What the start of a line says about its time: none, an unreadable one, or an instant. */
  datatype Stamp = NoStamp | Unparsable | At(micros: int)

  function LineStamp(line: string): Stamp {
    match MatchPrefix(line)
    case None => NoStamp
    case Some(p) =>
      match WithFraction(p)
      case Some(d) => At(ToMicros(d))
      case None =>
        match WithoutFraction(p)
        case Some(d) => At(ToMicros(d))
        case None => Unparsable
  }

  /**
    A timestamp-shaped prefix is unreadable exactly when its date or clock is out of
    range or it has more than six fraction digits; otherwise it yields the instant of
    a valid date-time with exactly those fields.
   */
  lemma LineStampCases(line: string)
    ensures LineStamp(line).NoStamp? <==> MatchPrefix(line).None?
    ensures LineStamp(line).Unparsable? <==>
      MatchPrefix(line).Some? && (!FieldsValid(MatchPrefix(line).value) || |MatchPrefix(line).value.fraction| > 6)
    ensures LineStamp(line).At? ==>
      var p := MatchPrefix(line).value;
      |p.fraction| <= 6 && Valid(PrefixTime(p)) && LineStamp(line).micros == ToMicros(PrefixTime(p))
  {
  }

  function DigitChar(v: nat): (c: char)
    requires v < 10
    ensures IsDigit(c) && DigitValue(c) == v
  {
    ('0' as int + v) as char
  }

  /** The `k` low decimal digits of `n`, most significant first, padded with zeros. */
  function Pad(n: nat, k: nat): (r: string)
    ensures |r| == k && AllDigits(r)
  {
    if k == 0 then [] else Pad(n / 10, k - 1) + [DigitChar(n % 10)]
  }

  lemma {:induction false} NatOfPad(n: nat, k: nat)
    requires n < Pow10(k)
    ensures NatOf(Pad(n, k)) == n
  {
    if k > 0 {
      var r := Pad(n, k);
      assert r[..k - 1] == Pad(n / 10, k - 1);
      NatOfPad(n / 10, k - 1);
    }
  }

  /** A date-time written the way the agent writes it, with six fraction digits. */
  function Format(d: DateTime): (r: string)
    requires Valid(d)
    ensures |r| == 26
  {
    DateText(d) + " " + ClockText(d) + "." + Pad(d.micro, 6)
  }

  /** `YYYY/MM/DD`. */
  function DateText(d: DateTime): (r: string)
    requires Valid(d)
    ensures |r| == 10
  {
    Pad(d.year, 4) + "/" + Pad(d.month, 2) + "/" + Pad(d.day, 2)
  }

  /** `HH:MM:SS`. */
  function ClockText(d: DateTime): (r: string)
    requires Valid(d)
    ensures |r| == 8
  {
    Pad(d.hour, 2) + ":" + Pad(d.minute, 2) + ":" + Pad(d.second, 2)
  }

  lemma DateLayout(d: DateTime)
    requires Valid(d)
    ensures var t := DateText(d);
      t[0..4] == Pad(d.year, 4) && t[4] == '/' && t[5..7] == Pad(d.month, 2) && t[7] == '/' && t[8..10] == Pad(d.day, 2)
  {
  }

  lemma ClockLayout(d: DateTime)
    requires Valid(d)
    ensures var t := ClockText(d);
      t[0..2] == Pad(d.hour, 2) && t[2] == ':' && t[3..5] == Pad(d.minute, 2) && t[5] == ':' && t[6..8] == Pad(d.second, 2)
  {
  }

  lemma FormatParts(d: DateTime, rest: string)
    requires Valid(d)
    ensures var line := Format(d) + rest;
      && line[0..10] == DateText(d) && line[10] == ' ' && line[11..19] == ClockText(d) && line[19] == '.'
      && line[20..26] == Pad(d.micro, 6)
  {
  }

  lemma SubSlice(s: string, i: nat, j: nat, a: nat, b: nat)
    requires i <= j <= |s| && a <= b <= j - i
    ensures s[i..j][a..b] == s[i + a..i + b]
  {
    forall k | 0 <= k < b - a ensures s[i..j][a..b][k] == s[i + a..i + b][k] {
      assert s[i..j][a..b][k] == s[i + a + k];
    }
  }

  /** Where each field of a written date-time sits. */
  lemma FormatLayout(d: DateTime, rest: string)
    requires Valid(d)
    ensures var line := Format(d) + rest;
      && line[0..4] == Pad(d.year, 4) && line[5..7] == Pad(d.month, 2) && line[8..10] == Pad(d.day, 2)
      && line[11..13] == Pad(d.hour, 2) && line[14..16] == Pad(d.minute, 2) && line[17..19] == Pad(d.second, 2)
      && line[20..26] == Pad(d.micro, 6)
      && line[4] == '/' && line[7] == '/' && line[10] == ' ' && line[13] == ':' && line[16] == ':' && line[19] == '.'
  {
    var line := Format(d) + rest;
    FormatParts(d, rest);
    DateLayout(d);
    ClockLayout(d);
    SubSlice(line, 0, 10, 0, 4);
    SubSlice(line, 0, 10, 5, 7);
    SubSlice(line, 0, 10, 8, 10);
    SubSlice(line, 11, 19, 0, 2);
    SubSlice(line, 11, 19, 3, 5);
    SubSlice(line, 11, 19, 6, 8);
    assert line[4] == line[0..10][4] && line[7] == line[0..10][7];
    assert line[13] == line[11..19][2] && line[16] == line[11..19][5];
  }

  /** The digit run after the dot of a written date-time is exactly its six fraction digits. */
  lemma FormattedFractionRun(d: DateTime, rest: string)
    requires Valid(d)
    requires rest == [] || !IsDigit(rest[0])
    ensures Span(Format(d) + rest, 20, Digit) == 26
  {
    var line := Format(d) + rest;
    FormatLayout(d, rest);
    forall k | 20 <= k < 26 ensures In(line[k], Digit) {
      assert line[k] == line[20..26][k - 20];
    }
    SpanIs(line, 20, 26, Digit);
  }

  /** A field written with `n` padded digits reads back as its value. */
  lemma FieldReads(line: string, i: nat, n: nat, v: nat)
    requires i + n <= |line| && v < Pow10(n) && line[i..i + n] == Pad(v, n)
    ensures DigitsAt(line, i, n) && NatOf(line[i..i + n]) == v
  {
    NatOfPad(v, n);
  }

  /** The six date and clock fields of a written date-time read back as themselves. */
  lemma FormattedFields(line: string, d: DateTime)
    requires Valid(d) && |line| >= 19
    requires line[0..4] == Pad(d.year, 4) && line[5..7] == Pad(d.month, 2) && line[8..10] == Pad(d.day, 2)
    requires line[11..13] == Pad(d.hour, 2) && line[14..16] == Pad(d.minute, 2) && line[17..19] == Pad(d.second, 2)
    ensures && DigitsAt(line, 0, 4) && DigitsAt(line, 5, 2) && DigitsAt(line, 8, 2)
            && DigitsAt(line, 11, 2) && DigitsAt(line, 14, 2) && DigitsAt(line, 17, 2)
    ensures && NatOf(line[0..4]) == d.year && NatOf(line[5..7]) == d.month && NatOf(line[8..10]) == d.day
            && NatOf(line[11..13]) == d.hour && NatOf(line[14..16]) == d.minute && NatOf(line[17..19]) == d.second
  {
    PaddedFields(line, Prefix(d.year, d.month, d.day, d.hour, d.minute, d.second, []));
  }

  /** A line laid out like a written date-time, its fraction run ending at index 26, matches with those fields. */
  lemma MatchLaidOut(line: string, d: DateTime)
    requires Valid(d) && |line| >= 26
    requires line[0..4] == Pad(d.year, 4) && line[5..7] == Pad(d.month, 2) && line[8..10] == Pad(d.day, 2)
    requires line[11..13] == Pad(d.hour, 2) && line[14..16] == Pad(d.minute, 2) && line[17..19] == Pad(d.second, 2)
    requires line[20..26] == Pad(d.micro, 6)
    requires line[4] == '/' && line[7] == '/' && line[10] == ' ' && line[13] == ':' && line[16] == ':' && line[19] == '.'
    requires Span(line, 20, Digit) == 26
    ensures MatchPrefix(line) == Some(Prefix(d.year, d.month, d.day, d.hour, d.minute, d.second, Pad(d.micro, 6)))
  {
    FormattedFields(line, d);
    assert IsDigit(line[20]) by {
      assert line[20] == line[20..26][0];
    }
  }

  lemma MatchFormatted(d: DateTime, rest: string)
    requires Valid(d)
    requires rest == [] || !IsDigit(rest[0])
    ensures MatchPrefix(Format(d) + rest) == Some(Prefix(d.year, d.month, d.day, d.hour, d.minute, d.second, Pad(d.micro, 6)))
  {
    FormatLayout(d, rest);
    FormattedFractionRun(d, rest);
    MatchLaidOut(Format(d) + rest, d);
  }

  /** Six written fraction digits scale back to the microseconds they were written from. */
  lemma SixDigitFraction(d: DateTime)
    requires Valid(d)
    ensures WithFraction(Prefix(d.year, d.month, d.day, d.hour, d.minute, d.second, Pad(d.micro, 6))) == Some(d)
  {
    assert Pow10(6) == 1000000;
    NatOfPad(d.micro, 6);
  }

  /** Reading back a written date-time gives its instant, whatever non-digit text follows it. */
  lemma ReadFormatted(d: DateTime, rest: string)
    requires Valid(d)
    requires rest == [] || !IsDigit(rest[0])
    ensures LineStamp(Format(d) + rest) == At(ToMicros(d))
  {
    MatchFormatted(d, rest);
    SixDigitFraction(d);
  }

  // ---------------------------------------------------------------------------
  // Fields out of calendar range

  /** Fields that fit the digit positions of the pattern, whether or not they name a real date and time. */
  predicate FitsPattern(p: Prefix) {
    && p.year < 10000 && p.month < 100 && p.day < 100
    && p.hour < 100 && p.minute < 100 && p.second < 100
    && AllDigits(p.fraction)
  }

  /** `YYYY/MM/DD HH:MM:SS` written from any fields, each zero-padded to its width. */
  function FieldsText(p: Prefix): (r: string)
    ensures |r| == 19
  {
    Pad(p.year, 4) + "/" + Pad(p.month, 2) + "/" + Pad(p.day, 2) + " "
      + Pad(p.hour, 2) + ":" + Pad(p.minute, 2) + ":" + Pad(p.second, 2)
  }

  /** The fields, then `.` and the fraction digits when there are any. */
  function PrefixText(p: Prefix): (r: string)
    ensures |r| == 19 + (if p.fraction == [] then 0 else 1 + |p.fraction|)
  {
    FieldsText(p) + (if p.fraction == [] then [] else "." + p.fraction)
  }

  lemma FieldsLayout(p: Prefix)
    ensures var t := FieldsText(p);
      && t[0..4] == Pad(p.year, 4) && t[5..7] == Pad(p.month, 2) && t[8..10] == Pad(p.day, 2)
      && t[11..13] == Pad(p.hour, 2) && t[14..16] == Pad(p.minute, 2) && t[17..19] == Pad(p.second, 2)
      && t[4] == '/' && t[7] == '/' && t[10] == ' ' && t[13] == ':' && t[16] == ':'
  {
  }

  /** Where the fields and the fraction of a written prefix sit in a line that starts with it. */
  lemma PrefixLayout(p: Prefix, rest: string)
    ensures var line := PrefixText(p) + rest;
      && line[0..19] == FieldsText(p)
      && (p.fraction != [] ==> line[19] == '.' && line[20..20 + |p.fraction|] == p.fraction)
      && (p.fraction == [] ==> line[19..] == rest)
  {
  }

  /** A line that starts with written fields holds each field's digits and each separator in its place. */
  lemma WrittenSlices(line: string, p: Prefix)
    requires |line| >= 19 && line[0..19] == FieldsText(p)
    ensures && line[0..4] == Pad(p.year, 4) && line[5..7] == Pad(p.month, 2) && line[8..10] == Pad(p.day, 2)
            && line[11..13] == Pad(p.hour, 2) && line[14..16] == Pad(p.minute, 2) && line[17..19] == Pad(p.second, 2)
    ensures line[4] == '/' && line[7] == '/' && line[10] == ' ' && line[13] == ':' && line[16] == ':'
  {
    FieldsLayout(p);
    WrittenDate(line, FieldsText(p));
    WrittenClock(line, FieldsText(p));
  }

  lemma WrittenDate(line: string, t: string)
    requires |line| >= 19 && |t| == 19 && line[0..19] == t
    ensures line[0..4] == t[0..4] && line[5..7] == t[5..7] && line[8..10] == t[8..10]
    ensures line[4] == t[4] && line[7] == t[7] && line[10] == t[10]
  {
    SubSlice(line, 0, 19, 0, 4);
    SubSlice(line, 0, 19, 5, 7);
    SubSlice(line, 0, 19, 8, 10);
    assert line[4] == t[4] && line[7] == t[7] && line[10] == t[10];
  }

  lemma WrittenClock(line: string, t: string)
    requires |line| >= 19 && |t| == 19 && line[0..19] == t
    ensures line[11..13] == t[11..13] && line[14..16] == t[14..16] && line[17..19] == t[17..19]
    ensures line[13] == t[13] && line[16] == t[16]
  {
    SubSlice(line, 0, 19, 11, 13);
    SubSlice(line, 0, 19, 14, 16);
    SubSlice(line, 0, 19, 17, 19);
    assert line[13] == t[13] && line[16] == t[16];
  }

  /** Six fields written with their padded widths read back as themselves, whether or not they are in range. */
  lemma PaddedFields(line: string, p: Prefix)
    requires FitsPattern(p) && |line| >= 19
    requires line[0..4] == Pad(p.year, 4) && line[5..7] == Pad(p.month, 2) && line[8..10] == Pad(p.day, 2)
    requires line[11..13] == Pad(p.hour, 2) && line[14..16] == Pad(p.minute, 2) && line[17..19] == Pad(p.second, 2)
    ensures && DigitsAt(line, 0, 4) && DigitsAt(line, 5, 2) && DigitsAt(line, 8, 2)
            && DigitsAt(line, 11, 2) && DigitsAt(line, 14, 2) && DigitsAt(line, 17, 2)
    ensures && NatOf(line[0..4]) == p.year && NatOf(line[5..7]) == p.month && NatOf(line[8..10]) == p.day
            && NatOf(line[11..13]) == p.hour && NatOf(line[14..16]) == p.minute && NatOf(line[17..19]) == p.second
  {
    assert Pow10(2) == 100 && Pow10(4) == 10000;
    FieldReads(line, 0, 4, p.year);
    FieldReads(line, 5, 2, p.month);
    FieldReads(line, 8, 2, p.day);
    FieldReads(line, 11, 2, p.hour);
    FieldReads(line, 14, 2, p.minute);
    FieldReads(line, 17, 2, p.second);
  }

  /** The digit run after the dot of a written prefix is exactly its fraction. */
  lemma WrittenFractionRun(p: Prefix, rest: string)
    requires AllDigits(p.fraction) && p.fraction != []
    requires rest == [] || !IsDigit(rest[0])
    ensures var line := PrefixText(p) + rest;
      |line| > 20 && line[19] == '.' && IsDigit(line[20]) && Span(line, 20, Digit) == 20 + |p.fraction|
      && line[20..Span(line, 20, Digit)] == p.fraction
  {
    var line := PrefixText(p) + rest;
    var n := |p.fraction|;
    PrefixLayout(p, rest);
    forall k | 20 <= k < 20 + n ensures In(line[k], Digit) {
      assert line[k] == p.fraction[k - 20];
    }
    SpanIs(line, 20, 20 + n, Digit);
  }

  /** The pattern reads a written prefix back as its own fields, in range or not. */
  lemma MatchWritten(p: Prefix, rest: string)
    requires FitsPattern(p)
    requires rest == [] || (!IsDigit(rest[0]) && rest[0] != '.')
    ensures MatchPrefix(PrefixText(p) + rest) == Some(p)
  {
    var line := PrefixText(p) + rest;
    PrefixLayout(p, rest);
    WrittenSlices(line, p);
    PaddedFields(line, p);
    if p.fraction != [] {
      WrittenFractionRun(p, rest);
    } else if |line| > 19 {
      assert line[19] == rest[0];
    }
  }

  /** A written prefix whose fields are out of calendar or clock range leaves an unreadable stamp. */
  lemma InvalidFieldsDropped(p: Prefix, rest: string)
    requires FitsPattern(p) && !FieldsValid(p)
    requires rest == [] || (!IsDigit(rest[0]) && rest[0] != '.')
    ensures LineStamp(PrefixText(p) + rest) == Unparsable
  {
    MatchWritten(p, rest);
  }

  // ---------------------------------------------------------------------------
  // Reading a timestamp back

  /** Digits written back with as many places as they had give the same digits. */
  lemma {:induction false} PadNatOf(f: string)
    requires AllDigits(f)
    ensures Pad(NatOf(f), |f|) == f
    decreases |f|
  {
    if f != [] {
      var init, c := f[..|f| - 1], f[|f| - 1];
      PadNatOf(init);
      var n := NatOf(f);
      assert n / 10 == NatOf(init) && n % 10 == DigitValue(c);
      assert DigitChar(DigitValue(c)) == c;
      assert f == init + [c];
    }
  }

  /** Scaling by `10^j` writes `j` more zeros on the right. */
  lemma {:induction false} PadShift(n: nat, k: nat, j: nat)
    ensures Pad(Shift(n, j), k + j) == Pad(n, k) + Pad(0, j)
    decreases j
  {
    if j > 0 {
      PadShift(n, k, j - 1);
    }
  }

  /** Two lines with the same `YYYY/MM/DD HH:MM:SS` fields and separators share their first 19 characters. */
  lemma SameClockText(a: string, b: string)
    requires |a| >= 19 && |b| >= 19
    requires a[0..4] == b[0..4] && a[5..7] == b[5..7] && a[8..10] == b[8..10]
    requires a[11..13] == b[11..13] && a[14..16] == b[14..16] && a[17..19] == b[17..19]
    requires a[4] == b[4] && a[7] == b[7] && a[10] == b[10] && a[13] == b[13] && a[16] == b[16]
    ensures a[..19] == b[..19]
  {
    forall k | 0 <= k < 19 ensures a[k] == b[k] {
      if k < 4 {
        assert a[k] == a[0..4][k] && b[k] == b[0..4][k];
      } else if 5 <= k < 7 {
        assert a[k] == a[5..7][k - 5] && b[k] == b[5..7][k - 5];
      } else if 8 <= k < 10 {
        assert a[k] == a[8..10][k - 8] && b[k] == b[8..10][k - 8];
      } else if 11 <= k < 13 {
        assert a[k] == a[11..13][k - 11] && b[k] == b[11..13][k - 11];
      } else if 14 <= k < 16 {
        assert a[k] == a[14..16][k - 14] && b[k] == b[14..16][k - 14];
      } else if 17 <= k {
        assert a[k] == a[17..19][k - 17] && b[k] == b[17..19][k - 17];
      }
    }
  }

  /**
    The instant of a stamped line is that of a valid date-time whose written form
    starts with the line's first 19 characters; its fraction digits, if any, follow a
    '.' and are the first digits of the written microseconds, the rest being zeros.
   */
  lemma StampRead(line: string)
    requires LineStamp(line).At?
    ensures var p := MatchPrefix(line).value;
      |p.fraction| <= 6 &&
      var d := PrefixTime(p);
      && Valid(d) && LineStamp(line).micros == ToMicros(d)
      && line[..19] == Format(d)[..19]
      && (p.fraction != [] ==>
            && line[19] == '.' && p.fraction == line[20..Span(line, 20, Digit)]
            && Pad(d.micro, 6) == p.fraction + Pad(0, 6 - |p.fraction|))
  {
    LineStampCases(line);
    PrefixRead(line, MatchPrefix(line).value);
  }

  /** The written form of a matched prefix's date-time starts with the line's first 19 characters. */
  lemma PrefixRead(line: string, p: Prefix)
    requires MatchPrefix(line) == Some(p) && |p.fraction| <= 6 && FieldsValid(p)
    ensures var d := PrefixTime(p);
      && Valid(d) && line[..19] == Format(d)[..19]
      && (p.fraction != [] ==>
            && line[19] == '.' && p.fraction == line[20..Span(line, 20, Digit)]
            && Pad(d.micro, 6) == p.fraction + Pad(0, 6 - |p.fraction|))
  {
    var d := PrefixTime(p);
    FractionScale(p.fraction);
    FieldsTimeValid(p, d.micro);
    ClockRead(line, d);
    FractionText(line);
    PadScaled(p.fraction, 6);
  }

  /** A matched fraction is the run of digits after a '.' at index 19. */
  lemma FractionText(line: string)
    requires MatchPrefix(line).Some?
    ensures var f := MatchPrefix(line).value.fraction;
      f != [] ==> |line| > 20 && line[19] == '.' && f == line[20..Span(line, 20, Digit)]
  {
  }

  /** A valid date-time with a matched prefix's six fields is written starting with the line's first 19 characters. */
  lemma ClockRead(line: string, d: DateTime)
    requires Valid(d) && MatchPrefix(line).Some?
    requires var p := MatchPrefix(line).value;
      && d.year == p.year && d.month == p.month && d.day == p.day
      && d.hour == p.hour && d.minute == p.minute && d.second == p.second
    ensures line[..19] == Format(d)[..19]
  {
    var w := Format(d) + [];
    FormatLayout(d, []);
    assert w == Format(d);
    PadNatOf(line[0..4]);
    PadNatOf(line[5..7]);
    PadNatOf(line[8..10]);
    PadNatOf(line[11..13]);
    PadNatOf(line[14..16]);
    PadNatOf(line[17..19]);
    SameClockText(line, w);
  }

  /** In-range fields with microseconds below a second make a valid date-time. */
  lemma FieldsTimeValid(p: Prefix, micro: int)
    requires FieldsValid(p) && 0 <= micro < 1000000
    ensures Valid(DateTime(p.year, p.month, p.day, p.hour, p.minute, p.second, micro))
  {
  }

  /** Digits scaled by `10^(w - |f|)` and written `w` places wide are those digits followed by zeros. */
  lemma PadScaled(f: string, w: nat)
    requires AllDigits(f) && |f| <= w
    ensures Pad(Shift(NatOf(f), w - |f|), w) == f + Pad(0, w - |f|)
  {
    PadNatOf(f);
    PadShift(NatOf(f), |f|, w - |f|);
  }


  /** A line that starts with the first 19 characters of a written date-time holds its fields and separators there. */
  lemma ClockPrefix(line: string, d: DateTime)
    requires Valid(d) && |line| >= 19 && line[..19] == Format(d)[..19]
    ensures && line[0..4] == Pad(d.year, 4) && line[5..7] == Pad(d.month, 2) && line[8..10] == Pad(d.day, 2)
            && line[11..13] == Pad(d.hour, 2) && line[14..16] == Pad(d.minute, 2) && line[17..19] == Pad(d.second, 2)
            && line[4] == '/' && line[7] == '/' && line[10] == ' ' && line[13] == ':' && line[16] == ':'
  {
    var w := Format(d) + [];
    FormatLayout(d, []);
    assert w == Format(d);
    forall i, j | 0 <= i <= j <= 19 ensures line[i..j] == w[i..j] {
      SubSlice(line, 0, 19, i, j);
      SubSlice(w, 0, 19, i, j);
    }
    assert line[4] == line[..19][4] && line[7] == line[..19][7] && line[10] == line[..19][10];
    assert line[13] == line[..19][13] && line[16] == line[..19][16];
  }

  /** The format without a fraction reads back as the instant it was written from, when no '.' follows it. */
  lemma ReadWithoutFraction(d: DateTime, rest: string)
    requires Valid(d) && d.micro == 0
    requires rest == [] || rest[0] != '.'
    ensures LineStamp(Format(d)[..19] + rest) == At(ToMicros(d))
  {
    var line := Format(d)[..19] + rest;
    assert line[..19] == Format(d)[..19];
    assert |line| > 20 ==> line[19] == rest[0];
    MatchWithoutFraction(line, d);
    StampWithoutFraction(line, d);
  }

  /** A line starting with the first 19 characters of a written date-time, and no '.' after them, matches with no fraction. */
  lemma MatchWithoutFraction(line: string, d: DateTime)
    requires Valid(d) && |line| >= 19 && line[..19] == Format(d)[..19]
    requires |line| > 20 ==> line[19] != '.'
    ensures MatchPrefix(line) == Some(Prefix(d.year, d.month, d.day, d.hour, d.minute, d.second, []))
  {
    ClockPrefix(line, d);
    FormattedFields(line, d);
  }

  /** A prefix matched with no fraction, from a valid date-time with no microseconds, stands for that instant. */
  lemma StampWithoutFraction(line: string, d: DateTime)
    requires Valid(d) && d.micro == 0
    requires MatchPrefix(line) == Some(Prefix(d.year, d.month, d.day, d.hour, d.minute, d.second, []))
    ensures LineStamp(line) == At(ToMicros(d))
  {
  }
}
