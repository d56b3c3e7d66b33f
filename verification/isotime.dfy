/** `Date.prototype.toISOString` on the UTC calendar of ECMA-262 (section
    21.4.1 "Time Values and Time Range" and the day/year/month functions
    that follow it): a time value in milliseconds since 1970-01-01T00:00Z
    becomes `YYYY-MM-DDTHH:mm:ss.sssZ`, with a signed six-digit year outside
    0000..9999. */
module IsoTime {
  import opened JsString

  const MsPerDay := 86_400_000
  const DaysPer400Years := 146_097

  /** The largest magnitude a valid `Date` can hold. */
  const MaxTime := 8_640_000_000_000_000

  /** A valid `Date`'s time value. The documents carry `new Date()`, which
      is always valid. */
  type TimeValue = t: int | -MaxTime <= t <= MaxTime

  /** Days in year `y` of the proleptic Gregorian calendar. */
  function DaysInYear(y: int): int
  {
    if y % 4 != 0 then 365 else if y % 100 != 0 then 366 else if y % 400 != 0 then 365 else 366
  }

  predicate IsLeap(y: int)
  {
    DaysInYear(y) == 366
  }

  /** DayFromYear of ECMA-262: days from 1970-01-01 to 1 January of `y`
      (`/` is floor division here, as there). */
  function DayFromYear(y: int): int
  {
    365 * (y - 1970) + (y - 1969) / 4 - (y - 1901) / 100 + (y - 1601) / 400
  }

  /** Floor division by `k` steps up by one exactly when reaching a multiple of `k`. */
  lemma FloorStep4(a: int)
    ensures (a + 1) / 4 - a / 4 == if (a + 1) % 4 == 0 then 1 else 0
  {
  }

  lemma FloorStep100(a: int)
    ensures (a + 1) / 100 - a / 100 == if (a + 1) % 100 == 0 then 1 else 0
  {
  }

  lemma FloorStep400(a: int)
    ensures (a + 1) / 400 - a / 400 == if (a + 1) % 400 == 0 then 1 else 0
  {
  }

  /** The leap-day counts of `DayFromYear` step exactly at multiples of
      4, 100 and 400. */
  lemma LeapStep4(y: int)
    ensures (y - 1968) / 4 - (y - 1969) / 4 == if y % 4 == 0 then 1 else 0
  {
    FloorStep4(y - 1969);
    assert (y - 1968) % 4 == y % 4;
  }

  lemma LeapStep100(y: int)
    ensures (y - 1900) / 100 - (y - 1901) / 100 == if y % 100 == 0 then 1 else 0
  {
    FloorStep100(y - 1901);
    assert (y - 1900) % 100 == y % 100;
  }

  lemma LeapStep400(y: int)
    ensures (y - 1600) / 400 - (y - 1601) / 400 == if y % 400 == 0 then 1 else 0
  {
    FloorStep400(y - 1601);
    assert (y - 1600) % 400 == y % 400;
  }

  /** Multiples of 400 are multiples of 100, which are multiples of 4. */
  lemma DivisorChain(y: int)
    ensures y % 100 == 0 ==> y % 4 == 0
    ensures y % 400 == 0 ==> y % 100 == 0
  {
    if y % 100 == 0 {
      var q := y / 100;
      assert y == 4 * (25 * q);
    }
    if y % 400 == 0 {
      var q := y / 400;
      assert y == 100 * (4 * q);
    }
  }

  /** Consecutive years are `DaysInYear` apart. */
  lemma YearStep(y: int)
    ensures DayFromYear(y + 1) == DayFromYear(y) + DaysInYear(y)
  {
    LeapStep4(y);
    LeapStep100(y);
    LeapStep400(y);
    DivisorChain(y);
    assert DayFromYear(y + 1) == 365 * (y + 1 - 1970) + (y - 1968) / 4 - (y - 1900) / 100 + (y - 1600) / 400;
  }

  /** The calendar repeats every 400 years. */
  lemma CycleStep(y: int)
    ensures DayFromYear(y + 400) == DayFromYear(y) + DaysPer400Years
  {
    assert (y + 400 - 1969) / 4 == (y - 1969) / 4 + 100;
    assert (y + 400 - 1901) / 100 == (y - 1901) / 100 + 4;
    assert (y + 400 - 1601) / 400 == (y - 1601) / 400 + 1;
  }

  /** Year 1970 + 400e starts exactly e cycles after the epoch. */
  lemma {:induction false} CycleStart(e: int)
    ensures DayFromYear(1970 + 400 * e) == DaysPer400Years * e
    decreases if e < 0 then -e else e
  {
    if e > 0 {
      CycleStart(e - 1);
      CycleStep(1970 + 400 * (e - 1));
    } else if e < 0 {
      CycleStart(e + 1);
      CycleStep(1970 + 400 * e);
    }
  }

  /** Later years start later. */
  lemma {:induction false} DayFromYearMonotone(a: int, b: int)
    ensures a <= b ==> DayFromYear(a) <= DayFromYear(b)
    decreases if a < b then b - a else 0
  {
    if a < b {
      YearStep(a);
      DayFromYearMonotone(a + 1, b);
    }
  }

  /** Walks forward from year `y` to the year holding day `day`, never
      reaching `top`. */
  function YearWalk(day: int, y: int, top: int): (r: int)
    requires DayFromYear(y) <= day < DayFromYear(top)
    ensures y <= r < top
    ensures DayFromYear(r) <= day < DayFromYear(r) + DaysInYear(r)
    decreases day - DayFromYear(y)
  {
    YearStep(y);
    if day < DayFromYear(y) + DaysInYear(y) then
      y
    else
      DayFromYearMonotone(top, y + 1);
      YearWalk(day, y + 1, top)
  }

  /** YearFromTime of ECMA-262, for a day number: the year whose days
      contain `day`. */
  function YearOfDay(day: int): (y: int)
    ensures DayFromYear(y) <= day < DayFromYear(y) + DaysInYear(y)
    ensures 1970 + 400 * (day / DaysPer400Years) <= y < 1970 + 400 * (day / DaysPer400Years) + 400
  {
    var e := day / DaysPer400Years;
    CycleStart(e);
    CycleStart(e + 1);
    YearWalk(day, 1970 + 400 * e, 1970 + 400 * (e + 1))
  }

  /** Days of the year before month `m` (1 = January .. 13 = end of year). */
  function DaysBeforeMonth(m: int, leap: bool): int
    requires 1 <= m <= 13
  {
    var l := if leap then 1 else 0;
    if m == 1 then 0 else if m == 2 then 31 else if m == 3 then 59 + l
    else if m == 4 then 90 + l else if m == 5 then 120 + l else if m == 6 then 151 + l
    else if m == 7 then 181 + l else if m == 8 then 212 + l else if m == 9 then 243 + l
    else if m == 10 then 273 + l else if m == 11 then 304 + l else if m == 12 then 334 + l
    else 365 + l
  }

  /** MonthFromTime of ECMA-262, 1-based, for a day within its year. */
  function MonthOfYearDay(doy: int, leap: bool): (m: int)
    requires 0 <= doy < DaysBeforeMonth(13, leap)
    ensures 1 <= m <= 12
    ensures DaysBeforeMonth(m, leap) <= doy < DaysBeforeMonth(m + 1, leap)
  {
    if doy < DaysBeforeMonth(2, leap) then 1 else if doy < DaysBeforeMonth(3, leap) then 2
    else if doy < DaysBeforeMonth(4, leap) then 3 else if doy < DaysBeforeMonth(5, leap) then 4
    else if doy < DaysBeforeMonth(6, leap) then 5 else if doy < DaysBeforeMonth(7, leap) then 6
    else if doy < DaysBeforeMonth(8, leap) then 7 else if doy < DaysBeforeMonth(9, leap) then 8
    else if doy < DaysBeforeMonth(10, leap) then 9 else if doy < DaysBeforeMonth(11, leap) then 10
    else if doy < DaysBeforeMonth(12, leap) then 11 else 12
  }

  /** The UTC calendar fields of a time value (month and day 1-based). */
  datatype UtcFields = UtcFields(year: int, month: int, day: int,
                                 hour: int, minute: int, second: int, millis: int)

  /** The fields lie in their calendar ranges and denote time value `t`:
      the independent reading of a broken-down UTC time. */
  ghost predicate Denotes(f: UtcFields, t: int)
  {
    && 1 <= f.month <= 12
    && 1 <= f.day
    && f.day - 1 < DaysBeforeMonth(f.month + 1, IsLeap(f.year)) - DaysBeforeMonth(f.month, IsLeap(f.year))
    && 0 <= f.hour < 24 && 0 <= f.minute < 60 && 0 <= f.second < 60 && 0 <= f.millis < 1000
    && t == (DayFromYear(f.year) + DaysBeforeMonth(f.month, IsLeap(f.year)) + f.day - 1) * MsPerDay
            + f.hour * 3_600_000 + f.minute * 60_000 + f.second * 1000 + f.millis
  }

  /** Splits a millisecond offset within a day into hours, minutes,
      seconds and milliseconds. */
  lemma TimeOfDay(x: int)
    requires 0 <= x < MsPerDay
    ensures 0 <= x / 1000 / 60 / 60 < 24
    ensures x == (x / 1000 / 60 / 60) * 3_600_000 + (x / 1000 / 60 % 60) * 60_000
                 + (x / 1000 % 60) * 1000 + x % 1000
  {
    var secs := x / 1000;
    var mins := secs / 60;
    assert x == secs * 1000 + x % 1000;
    assert secs == mins * 60 + secs % 60;
    assert mins == (mins / 60) * 60 + mins % 60;
  }

  /** Splits a time value into its UTC calendar fields. */
  function Fields(t: int): (f: UtcFields)
    ensures Denotes(f, t)
  {
    var day := t / MsPerDay;
    var inDay := t % MsPerDay;
    assert t == day * MsPerDay + inDay;
    TimeOfDay(inDay);
    var y := YearOfDay(day);
    var leap := IsLeap(y);
    var doy := day - DayFromYear(y);
    assert DaysBeforeMonth(13, leap) == DaysInYear(y);
    var m := MonthOfYearDay(doy, leap);
    UtcFields(y, m, doy - DaysBeforeMonth(m, leap) + 1,
              inDay / 1000 / 60 / 60, inDay / 1000 / 60 % 60, inDay / 1000 % 60, inDay % 1000)
  }

  /** A time value's year lies within six digits either side of zero. */
  lemma YearRange(t: TimeValue)
    ensures -1_000_000 < Fields(t).year < 1_000_000
  {
    var day := t / MsPerDay;
    assert -100_000_000 <= day <= 100_000_000;
    var e := day / DaysPer400Years;
    assert -685 <= e <= 684;
  }

  /** `String(n).padStart(width, "0")` for a number that fits the width. */
  function Digits(n: nat, width: nat): (r: string)
    requires |NatToDecimal(n)| <= width
    ensures |r| == width
    ensures forall i :: 0 <= i < |r| ==> IsDigit(r[i])
    ensures DecimalValue(r) == n
  {
    PaddedNumber(n, width);
    PadStart(NatToDecimal(n), width)
  }

  /** Whether `s` is a run of decimal digits. */
  predicate AllDigits(s: string)
  {
    forall i :: 0 <= i < |s| ==> IsDigit(s[i])
  }

  /** `r` is `±YYYYYY` or `YYYY` and reads as year `y`. */
  ghost predicate YearReads(r: string, y: int)
  {
    || (|r| == 4 && AllDigits(r) && y == DecimalValue(r))
    || (|r| == 7 && r[0] == '+' && AllDigits(r[1..]) && y == DecimalValue(r[1..]))
    || (|r| == 7 && r[0] == '-' && AllDigits(r[1..]) && y + DecimalValue(r[1..]) == 0)
  }

  /** A sign character followed by six digits. */
  function Signed(sign: char, d: string): (r: string)
    requires |d| == 6
    ensures |r| == 7 && r[0] == sign && r[1..] == d
  {
    [sign] + d
  }

  /** The year as `toISOString` writes it: four digits for 0..9999, else a
      sign and six digits. */
  function YearText(y: int): (r: string)
    requires -1_000_000 < y < 1_000_000
    ensures YearReads(r, y)
    ensures 0 <= y <= 9999 <==> |r| == 4
  {
    if 0 <= y <= 9999 then
      DecimalWidth(y);
      Digits(y, 4)
    else if y < 0 then
      DecimalWidth(-y);
      Signed('-', Digits(-y, 6))
    else
      DecimalWidth(y);
      Signed('+', Digits(y, 6))
  }

  /** `g` is a separator followed by two digits reading as `n`. */
  ghost predicate GroupReads(g: string, sep: char, n: int)
  {
    |g| == 3 && g[0] == sep && AllDigits(g[1..]) && n == DecimalValue(g[1..])
  }

  /** A separator and a two-digit group: `-MM`, `-DD`, `THH`, `:mm`, `:ss`. */
  function Group2(sep: char, n: nat): (r: string)
    requires n < 100
    ensures GroupReads(r, sep, n)
  {
    DecimalWidth(n);
    var d := Digits(n, 2);
    var r := [sep] + d;
    assert r[1..] == d;
    r
  }

  /** `g` is `.sssZ` with the digits reading as `n`. */
  ghost predicate MillisReads(g: string, n: int)
  {
    |g| == 5 && g[0] == '.' && g[4] == 'Z' && AllDigits(g[1..4]) && n == DecimalValue(g[1..4])
  }

  /** The milliseconds and the closing `Z`. */
  function MillisText(n: nat): (r: string)
    requires n < 1000
    ensures MillisReads(r, n)
  {
    DecimalWidth(n);
    var d := Digits(n, 3);
    var r := "." + d + "Z";
    assert r[1..4] == d;
    r
  }

  /** `r` is `-MM-DDTHH:mm:ss.sssZ` and its groups read as the month, day,
      time of day and milliseconds of `f`. */
  ghost predicate SuffixReads(r: string, f: UtcFields)
  {
    |r| == 20 && GroupReads(r[..3], '-', f.month) && DayReads(r[3..], f)
  }

  ghost predicate DayReads(r: string, f: UtcFields)
  {
    |r| == 17 && GroupReads(r[..3], '-', f.day) && HourReads(r[3..], f)
  }

  ghost predicate HourReads(r: string, f: UtcFields)
  {
    |r| == 14 && GroupReads(r[..3], 'T', f.hour) && MinuteReads(r[3..], f)
  }

  ghost predicate MinuteReads(r: string, f: UtcFields)
  {
    |r| == 11 && GroupReads(r[..3], ':', f.minute) && SecondReads(r[3..], f)
  }

  ghost predicate SecondReads(r: string, f: UtcFields)
  {
    |r| == 8 && GroupReads(r[..3], ':', f.second) && MillisReads(r[3..], f.millis)
  }

  /** Everything after the year in the ISO text. */
  function SuffixText(f: UtcFields): (r: string)
    requires 1 <= f.month <= 12 && 1 <= f.day <= 31
    requires 0 <= f.hour < 24 && 0 <= f.minute < 60 && 0 <= f.second < 60 && 0 <= f.millis < 1000
    ensures SuffixReads(r, f)
  {
    var mo, d, h := Group2('-', f.month), Group2('-', f.day), Group2('T', f.hour);
    var mi, s, ms := Group2(':', f.minute), Group2(':', f.second), MillisText(f.millis);
    var t4 := s + ms;
    assert t4[..3] == s && t4[3..] == ms;
    var t3 := mi + t4;
    assert t3[..3] == mi && t3[3..] == t4;
    var t2 := h + t3;
    assert t2[..3] == h && t2[3..] == t3;
    var t1 := d + t2;
    assert t1[..3] == d && t1[3..] == t2;
    var r := mo + t1;
    assert r[..3] == mo && r[3..] == t1;
    r
  }

  /** The month lengths of the calendar are at most 31 days. */
  lemma MonthLength(m: int, leap: bool)
    requires 1 <= m <= 12
    ensures DaysBeforeMonth(m + 1, leap) - DaysBeforeMonth(m, leap) <= 31
  {
  }

  /** `r` is an ISO-8601 UTC timestamp whose fields are `f`. */
  ghost predicate IsoReads(r: string, f: UtcFields)
  {
    |r| >= 20 && YearReads(r[..|r| - 20], f.year) && SuffixReads(r[|r| - 20..], f)
  }

  /** The ISO text of calendar fields in range. */
  function IsoText(f: UtcFields): (r: string)
    requires -1_000_000 < f.year < 1_000_000
    requires 1 <= f.month <= 12 && 1 <= f.day <= 31
    requires 0 <= f.hour < 24 && 0 <= f.minute < 60 && 0 <= f.second < 60 && 0 <= f.millis < 1000
    ensures |r| == 24 || |r| == 27
    ensures IsoReads(r, f)
    ensures |r| == 24 <==> 0 <= f.year <= 9999
  {
    var y, rest := YearText(f.year), SuffixText(f);
    var r := y + rest;
    assert r[..|r| - 20] == y && r[|r| - 20..] == rest;
    r
  }

  /** `new Date(t).toISOString()`: the text reads back as the UTC calendar
      fields that denote `t`. */
  function IsoString(t: TimeValue): (r: string)
    ensures |r| == 24 || |r| == 27
    ensures IsoReads(r, Fields(t)) && Denotes(Fields(t), t)
    ensures |r| == 24 <==> 0 <= Fields(t).year <= 9999
  {
    var f := Fields(t);
    YearRange(t);
    MonthLength(f.month, IsLeap(f.year));
    IsoText(f)
  }

  /** The fields a text reads as are unique. */
  lemma {:induction false} ReadsUnique(r: string, f: UtcFields, g: UtcFields)
    requires IsoReads(r, f) && IsoReads(r, g)
    ensures f == g
  {
  }

  /** Distinct creation times have distinct ISO texts, so the text
      identifies the time value. */
  lemma {:induction false} IsoStringInjective(t: TimeValue, u: TimeValue)
    ensures IsoString(t) == IsoString(u) ==> t == u
  {
    if IsoString(t) == IsoString(u) {
      ReadsUnique(IsoString(t), Fields(t), Fields(u));
    }
  }
}
