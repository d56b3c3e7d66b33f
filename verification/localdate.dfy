/** The date and time stamps the client prints for a parsed date:
    `${getFullYear()}.${MM}.${DD}` and `${HH}:${mm}`, where each two-digit
    part is `String(n).padStart(2, "0")` and the month is `getMonth() + 1`.
    Parsing and the time zone are not modelled: the local calendar fields
    of `new Date(s)` are an input. */
module LocalDate {
  import opened JsString
  import opened IsoTime

  /** The local getters of a valid date; `month` is `getMonth()`, counted
      from 0. */
  datatype Fields = Fields(year: int, month: int, day: int, hours: int, minutes: int)

  /** Fields the getters can return. */
  type CalendarFields = f: Fields
    | 0 <= f.month <= 11 && 1 <= f.day <= 31 && 0 <= f.hours <= 23 && 0 <= f.minutes <= 59
    witness Fields(1970, 0, 1, 0, 0)

  /** `new Date(s)`: a valid date, or the invalid date whose getters all
      return `NaN`. */
  datatype LocalTime = Valid(fields: CalendarFields) | Invalid

  /** `String(n).padStart(2, "0")` for a number below 100. */
  function Pad2(n: nat): (r: string)
    requires n < 100
    ensures |r| == 2 && AllDigits(r) && DecimalValue(r) == n
  {
    DecimalWidth(n);
    Digits(n, 2)
  }

  /** `${y}.${m}.${d}` with two-character `m` and `d`. */
  function Dotted(y: string, m: string, d: string): (r: string)
    requires |m| == 2 && |d| == 2
    ensures |r| == |y| + 6
    ensures r[..|y|] == y && r[|y|] == '.' && r[|y| + 1..|y| + 3] == m
    ensures r[|y| + 3] == '.' && r[|y| + 4..] == d
  {
    var r := y + "." + m + "." + d;
    assert r[..|y|] == y && r[|y| + 1..|y| + 3] == m && r[|y| + 4..] == d;
    r
  }

  /** `r` is a date stamp of the calendar day of `f`. */
  predicate DateReads(r: string, f: CalendarFields)
  {
    && |r| >= 7
    && var k := |r| - 6;
      && r[..k] == IntToDecimal(f.year)
      && r[k] == '.' && r[k + 3] == '.'
      && AllDigits(r[k + 1..k + 3]) && DecimalValue(r[k + 1..k + 3]) == f.month + 1
      && AllDigits(r[k + 4..]) && DecimalValue(r[k + 4..]) == f.day
  }

  /** `r` is an `HH:mm` stamp of the hour and minute of `f`. */
  predicate TimeReads(r: string, f: CalendarFields)
  {
    && |r| == 5 && r[2] == ':'
    && AllDigits(r[..2]) && DecimalValue(r[..2]) == f.hours
    && AllDigits(r[3..]) && DecimalValue(r[3..]) == f.minutes
  }

  /** A stamp put together from the year text and two two-digit groups
      reads as the day they were written for. */
  lemma DottedReads(m: string, d: string, f: CalendarFields)
    requires |m| == 2 && AllDigits(m) && DecimalValue(m) == f.month + 1
    requires |d| == 2 && AllDigits(d) && DecimalValue(d) == f.day
    ensures DateReads(Dotted(IntToDecimal(f.year), m, d), f)
  {
    var y := IntToDecimal(f.year);
    var r := Dotted(y, m, d);
    assert |r| - 6 == |y|;
  }

  /** The date stamp: `String(NaN)` is `"NaN"`, which `padStart` leaves
      alone, so an invalid date prints as `NaN.NaN.NaN`. */
  function DateText(t: LocalTime): (r: string)
    ensures t.Invalid? ==> r == "NaN.NaN.NaN"
    ensures t.Valid? ==> DateReads(r, t.fields)
  {
    match t
    case Invalid => "NaN.NaN.NaN"
    case Valid(f) =>
      var m, d := Pad2(f.month + 1), Pad2(f.day);
      DottedReads(m, d, f);
      Dotted(IntToDecimal(f.year), m, d)
  }

  /** The time stamp, `HH:mm`, or `NaN:NaN` for an invalid date. */
  function TimeText(t: LocalTime): (r: string)
    ensures t.Invalid? ==> r == "NaN:NaN"
    ensures t.Valid? ==> TimeReads(r, t.fields)
  {
    match t
    case Invalid => "NaN:NaN"
    case Valid(f) =>
      var h, m := Pad2(f.hours), Pad2(f.minutes);
      var r := h + ":" + m;
      assert r[..2] == h && r[3..] == m;
      r
  }

  /** The date stamp determines the calendar day. */
  lemma DateTextInjective(a: CalendarFields, b: CalendarFields)
    ensures DateText(Valid(a)) == DateText(Valid(b)) ==> a.year == b.year && a.month == b.month && a.day == b.day
  {
    if DateText(Valid(a)) == DateText(Valid(b)) {
      var r := DateText(Valid(a));
      assert DateReads(r, a) && DateReads(r, b);
      IntDecimalInjective(a.year, b.year);
    }
  }

  /** The time stamp determines the hour and minute. */
  lemma TimeTextInjective(a: CalendarFields, b: CalendarFields)
    ensures TimeText(Valid(a)) == TimeText(Valid(b)) ==> a.hours == b.hours && a.minutes == b.minutes
  {
  }

  /** A valid date never prints like an invalid one. */
  lemma ValidNeverNaN(f: CalendarFields)
    ensures DateText(Valid(f)) != DateText(Invalid)
    ensures TimeText(Valid(f)) != TimeText(Invalid)
  {
    var r := DateText(Valid(f));
    var y := IntToDecimal(f.year);
    var k := |r| - 6;
    assert r[..k] == y;
    assert r[0] == y[0];
    if f.year >= 0 {
      assert IsDigit(y[0]);
    }
    assert TimeText(Valid(f))[2] == ':';
  }
}
