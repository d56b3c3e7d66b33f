/** The JavaScript string operations the feedback code relies on:
    `String.prototype.trim`, UTF-16 `length`, `String(n)` for integers,
    `padStart(2, "0")` and `Array.prototype.join`. Strings are sequences
    of Unicode scalar values; `length` is counted in UTF-16 code units. */
module JsString {

  /** The code points `trim` removes: WhiteSpace (TAB, VT, FF, SP, NBSP,
      ZWNBSP and the Unicode space separators) and LineTerminator (LF, CR,
      LS, PS), per sections 12.2 and 12.3 of ECMA-262. */
  predicate IsSpace(c: char)
  {
    || c == '\t' || c == '\n' || c == '\U{000B}' || c == '\U{000C}' || c == '\r'
    || c == ' ' || c == '\U{00A0}' || c == '\U{1680}'
    || ('\U{2000}' <= c <= '\U{200A}')
    || c == '\U{2028}' || c == '\U{2029}' || c == '\U{202F}' || c == '\U{205F}'
    || c == '\U{3000}' || c == '\U{FEFF}'
  }

  /** Every character of `s` is a space. */
  predicate AllSpace(s: string)
  {
    forall i :: 0 <= i < |s| ==> IsSpace(s[i])
  }

  /** `s` has no space at either end: what `trim` produces. */
  predicate IsTrimmed(s: string)
  {
    s == [] || (!IsSpace(s[0]) && !IsSpace(s[|s| - 1]))
  }

  /** The first index at or after `i` that holds no space (or `|s|`). */
  function SkipSpaces(s: string, i: nat): (j: nat)
    requires i <= |s|
    ensures i <= j <= |s|
    ensures forall k :: i <= k < j ==> IsSpace(s[k])
    ensures j == |s| || !IsSpace(s[j])
    decreases |s| - i
  {
    if i < |s| && IsSpace(s[i]) then SkipSpaces(s, i + 1) else i
  }

  /** The start of the run of spaces that ends at `j`, not going below `lo`. */
  function BackSpaces(s: string, lo: nat, j: nat): (e: nat)
    requires lo <= j <= |s|
    ensures lo <= e <= j
    ensures forall k :: e <= k < j ==> IsSpace(s[k])
    ensures e == lo || !IsSpace(s[e - 1])
    decreases j
  {
    if j > lo && IsSpace(s[j - 1]) then BackSpaces(s, lo, j - 1) else j
  }

  /** How many spaces `trim` drops from the front of `s`. */
  function LeadingSpaces(s: string): (n: nat)
    ensures n <= |s|
    ensures forall k :: 0 <= k < n ==> IsSpace(s[k])
    ensures n == |s| || !IsSpace(s[n])
  {
    SkipSpaces(s, 0)
  }

  /** `s.trim()`: `s` is spaces, then the result, then spaces, and the
      result neither starts nor ends with a space. */
  function Trim(s: string): (r: string)
    ensures IsTrimmed(r)
    ensures LeadingSpaces(s) + |r| <= |s|
    ensures r == s[LeadingSpaces(s)..LeadingSpaces(s) + |r|]
    ensures forall k :: 0 <= k < LeadingSpaces(s) ==> IsSpace(s[k])
    ensures forall k :: LeadingSpaces(s) + |r| <= k < |s| ==> IsSpace(s[k])
  {
    var a := LeadingSpaces(s);
    var e := BackSpaces(s, a, |s|);
    var r := s[a..e];
    assert r != [] ==> r[0] == s[a] && r[|r| - 1] == s[e - 1];
    r
  }

  /** A trimmed string is its own `trim`. */
  lemma {:induction false} TrimFixesTrimmed(s: string)
    requires IsTrimmed(s)
    ensures Trim(s) == s
  {
    var a := LeadingSpaces(s);
    if s != [] {
      assert a == 0;
      assert BackSpaces(s, 0, |s|) == |s|;
    }
  }

  /** Trimming twice is trimming once. */
  lemma TrimIdempotent(s: string)
    ensures Trim(Trim(s)) == Trim(s)
  {
    TrimFixesTrimmed(Trim(s));
  }

  /** `s.trim()` is empty exactly when `s` consists of spaces only
      (JavaScript `!s.trim()`). */
  lemma {:induction false} TrimEmptyIffAllSpace(s: string)
    ensures Trim(s) == [] <==> AllSpace(s)
  {
    var a := LeadingSpaces(s);
    var r := Trim(s);
    if r != [] {
      assert s[a] == r[0];
    }
  }

  /** `s` is its leading spaces, its trimmed text and its trailing spaces. */
  lemma TrimSplit(s: string)
    ensures LeadingSpaces(s) + |Trim(s)| <= |s|
    ensures s == s[..LeadingSpaces(s)] + Trim(s) + s[LeadingSpaces(s) + |Trim(s)|..]
  {
    var a, r := LeadingSpaces(s), Trim(s);
    var b := a + |r|;
    assert s[..a] + s[a..b] == s[..b];
    assert s[..b] + s[b..] == s;
  }

  /** Number of UTF-16 code units that encode `c`. */
  function CodeUnits(c: char): nat
  {
    if c as int >= 0x1_0000 then 2 else 1
  }

  /** `s.length` in JavaScript: the number of UTF-16 code units, so a
      character outside the Basic Multilingual Plane counts twice. */
  function Utf16Length(s: string): (n: nat)
    ensures |s| <= n <= 2 * |s|
  {
    if s == [] then 0 else CodeUnits(s[0]) + Utf16Length(s[1..])
  }

  /** The UTF-16 length of a concatenation is the sum of the lengths. */
  lemma {:induction false} Utf16LengthConcat(a: string, b: string)
    ensures Utf16Length(a + b) == Utf16Length(a) + Utf16Length(b)
  {
    if a != [] {
      assert (a + b)[0] == a[0];
      assert (a + b)[1..] == a[1..] + b;
      Utf16LengthConcat(a[1..], b);
      assert Utf16Length(a + b) == CodeUnits(a[0]) + Utf16Length(a[1..] + b);
    } else {
      assert a + b == b;
    }
  }

  /** Trimming never lengthens a string, in code units as in characters. */
  lemma Utf16LengthTrim(s: string)
    ensures Utf16Length(Trim(s)) <= Utf16Length(s)
  {
    var r := Trim(s);
    var a := LeadingSpaces(s);
    var pre, post := s[..a], s[a + |r|..];
    TrimSplit(s);
    Utf16LengthConcat(pre, r);
    Utf16LengthConcat(pre + r, post);
  }

  /** The decimal digit character for `d`. */
  function DigitChar(d: int): char
    requires 0 <= d < 10
  {
    "0123456789"[d]
  }

  predicate IsDigit(c: char)
  {
    48 <= c as int <= 57
  }

  /** The value of a decimal digit character. */
  function DigitValue(c: char): nat
    requires IsDigit(c)
  {
    c as int - 48
  }

  /** `String(n)` for a natural number: its decimal digits, no leading zero. */
  function NatToDecimal(n: nat): (r: string)
    ensures |r| >= 1
    ensures forall i :: 0 <= i < |r| ==> IsDigit(r[i])
    ensures |r| > 1 ==> r[0] != '0'
    ensures n < 10 <==> |r| == 1
  {
    if n < 10 then [DigitChar(n)] else NatToDecimal(n / 10) + [DigitChar(n % 10)]
  }

  /** `String(n)` for an integer: a minus sign for negatives. */
  function IntToDecimal(n: int): string
  {
    if n < 0 then "-" + NatToDecimal(-n) else NatToDecimal(n)
  }

  /** Distinct integers print differently: a minus sign is never a digit,
      and the digits read back as the magnitude. */
  lemma IntDecimalInjective(a: int, b: int)
    ensures IntToDecimal(a) == IntToDecimal(b) ==> a == b
  {
    if IntToDecimal(a) == IntToDecimal(b) {
      var ma := if a < 0 then -a else a;
      var mb := if b < 0 then -b else b;
      DecimalRoundTrip(ma);
      DecimalRoundTrip(mb);
      var da, db := NatToDecimal(ma), NatToDecimal(mb);
      assert IsDigit(da[0]) && IsDigit(db[0]);
      if a < 0 && b < 0 {
        assert IntToDecimal(a)[1..] == da && IntToDecimal(b)[1..] == db;
      }
    }
  }

  /** The number a string of decimal digits denotes (the independent reading
      side of `NatToDecimal`). */
  function DecimalValue(s: string): nat
    requires forall i :: 0 <= i < |s| ==> IsDigit(s[i])
  {
    if s == [] then 0 else 10 * DecimalValue(s[..|s| - 1]) + DigitValue(s[|s| - 1])
  }

  /** Reading the decimal text of `n` back gives `n`. */
  lemma {:induction false} DecimalRoundTrip(n: nat)
    ensures DecimalValue(NatToDecimal(n)) == n
  {
    var r := NatToDecimal(n);
    if n >= 10 {
      DecimalRoundTrip(n / 10);
      assert r[..|r| - 1] == NatToDecimal(n / 10);
    }
  }

  /** `n` copies of the character `c`. */
  function Repeat(c: char, n: nat): (z: string)
    ensures |z| == n && forall i :: 0 <= i < n ==> z[i] == c
  {
    seq(n, _ => c)
  }

  /** `s.padStart(width, "0")`: left-pads with zeros to at least `width` characters. */
  function PadStart(s: string, width: nat): (r: string)
    ensures |r| == if |s| >= width then |s| else width
    ensures r[|r| - |s|..] == s
    ensures forall i :: 0 <= i < |r| - |s| ==> r[i] == '0'
  {
    if |s| >= width then s else Repeat('0', width - |s|) + s
  }

  /** A leading zero does not change the value of a digit string. */
  lemma {:induction false} LeadingZero(s: string)
    requires forall i :: 0 <= i < |s| ==> IsDigit(s[i])
    ensures DecimalValue("0" + s) == DecimalValue(s)
  {
    if s != [] {
      assert ("0" + s)[..|s|] == "0" + s[..|s| - 1];
      LeadingZero(s[..|s| - 1]);
    }
  }

  /** Any number of leading zeros leave the digits and their value alone. */
  lemma {:induction false} ZerosDecimal(k: nat, s: string)
    requires forall i :: 0 <= i < |s| ==> IsDigit(s[i])
    ensures forall i :: 0 <= i < k + |s| ==> IsDigit((Repeat('0', k) + s)[i])
    ensures DecimalValue(Repeat('0', k) + s) == DecimalValue(s)
  {
    if k > 0 {
      ZerosDecimal(k - 1, s);
      var rest := Repeat('0', k - 1) + s;
      assert Repeat('0', k) + s == "0" + rest;
      LeadingZero(rest);
    } else {
      assert Repeat('0', k) + s == s;
    }
  }

  /** Padding the decimal text of `n` with zeros keeps it all digits and
      reading it back still gives `n`. */
  lemma PaddedDecimal(s: string, width: nat)
    requires forall i :: 0 <= i < |s| ==> IsDigit(s[i])
    ensures forall i :: 0 <= i < |PadStart(s, width)| ==> IsDigit(PadStart(s, width)[i])
    ensures DecimalValue(PadStart(s, width)) == DecimalValue(s)
  {
    if |s| < width {
      ZerosDecimal(width - |s|, s);
    }
  }

  /** `String(n).padStart(w, "0")` for a number of at most `w` digits is
      exactly `w` digits that read back as `n`. */
  lemma PaddedNumber(n: nat, width: nat)
    requires |NatToDecimal(n)| <= width
    ensures |PadStart(NatToDecimal(n), width)| == width
    ensures forall i :: 0 <= i < width ==> IsDigit(PadStart(NatToDecimal(n), width)[i])
    ensures DecimalValue(PadStart(NatToDecimal(n), width)) == n
  {
    DecimalRoundTrip(n);
    PaddedDecimal(NatToDecimal(n), width);
  }

  /** Numbers below 100 have at most two decimal digits, below 1000 three,
      below 10000 four, and so on up to six. */
  lemma {:induction false} DecimalWidth(n: nat)
    ensures n < 100 ==> |NatToDecimal(n)| <= 2
    ensures n < 1000 ==> |NatToDecimal(n)| <= 3
    ensures n < 10000 ==> |NatToDecimal(n)| <= 4
    ensures n < 100000 ==> |NatToDecimal(n)| <= 5
    ensures n < 1000000 ==> |NatToDecimal(n)| <= 6
  {
    if n >= 10 {
      DecimalWidth(n / 10);
      assert |NatToDecimal(n)| == |NatToDecimal(n / 10)| + 1;
    }
  }

  /** `xs.join(sep)`. */
  function Join(xs: seq<string>, sep: string): (r: string)
    ensures xs == [] ==> r == []
    ensures |xs| == 1 ==> r == xs[0]
  {
    if xs == [] then [] else if |xs| == 1 then xs[0] else xs[0] + sep + Join(xs[1..], sep)
  }
}
