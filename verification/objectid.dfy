/** MongoDB document identifiers: twelve bytes, rendered by `String(id)`
    (and by `JSON.stringify`) as twenty-four lower-case hexadecimal digits. */
module ObjectIds {
  import opened Base

  newtype byte = x: int | 0 <= x < 256

  /** A twelve-byte ObjectId. */
  type ObjectId = s: seq<byte> | |s| == 12 witness [0, 0, 0, 0, 0, 0, 0, 0, 0, 0, 0, 0]

  /** The lower-case hexadecimal digit for `d`. */
  function HexChar(d: int): char
    requires 0 <= d < 16
  {
    "0123456789abcdef"[d]
  }

  /** The value of a lower-case hexadecimal digit, if `c` is one. */
  function HexValue(c: char): Option<int>
  {
    if '0' <= c <= '9' then Some(c as int - '0' as int)
    else if 'a' <= c <= 'f' then Some(c as int - 'a' as int + 10)
    else None
  }

  /** Two hex digits per byte, high nibble first. */
  function Hex(bs: seq<byte>): (r: string)
    ensures |r| == 2 * |bs|
  {
    if bs == [] then [] else [HexChar(bs[0] as int / 16), HexChar(bs[0] as int % 16)] + Hex(bs[1..])
  }

  /** Reads a hex string back into bytes; `None` for an odd length or a
      character that is not a lower-case hex digit. */
  function ParseHex(s: string): Option<seq<byte>>
    decreases |s|
  {
    if s == [] then Some([])
    else if |s| == 1 then None
    else
      match (HexValue(s[0]), HexValue(s[1]), ParseHex(s[2..]))
      case (Some(hi), Some(lo), Some(rest)) => Some([(16 * hi + lo) as byte] + rest)
      case _ => None
  }

  /** Each digit character reads back as the value it was written for. */
  lemma HexCharValue(d: int)
    requires 0 <= d < 16
    ensures HexValue(HexChar(d)) == Some(d)
  {
  }

  /** The two digits written for a byte read back as that byte. */
  lemma ByteDigits(b: byte)
    ensures HexValue(HexChar(b as int / 16)) == Some(b as int / 16)
    ensures HexValue(HexChar(b as int % 16)) == Some(b as int % 16)
    ensures (16 * (b as int / 16) + b as int % 16) as byte == b
  {
    HexCharValue(b as int / 16);
    HexCharValue(b as int % 16);
  }

  /** Reading two digits in front of readable text. */
  lemma ParsePair(s: string, hi: int, lo: int)
    requires |s| >= 2 && 0 <= hi < 16 && 0 <= lo < 16
    requires HexValue(s[0]) == Some(hi) && HexValue(s[1]) == Some(lo)
    requires ParseHex(s[2..]).Some?
    ensures ParseHex(s) == Some([(16 * hi + lo) as byte] + ParseHex(s[2..]).value)
  {
  }

  /** Reading the hex text of some bytes back gives the bytes. */
  lemma {:induction false} HexRoundTrip(bs: seq<byte>)
    ensures ParseHex(Hex(bs)) == Some(bs)
  {
    if bs != [] {
      var s := Hex(bs);
      ByteDigits(bs[0]);
      HexRoundTrip(bs[1..]);
      assert s[2..] == Hex(bs[1..]);
      ParsePair(s, bs[0] as int / 16, bs[0] as int % 16);
      assert [bs[0]] + bs[1..] == bs;
    }
  }

  /** `String(id)`: twenty-four hex digits that read back as the id. */
  function IdString(id: ObjectId): (r: string)
    ensures |r| == 24
    ensures ParseHex(r) == Some(id)
  {
    HexRoundTrip(id);
    Hex(id)
  }

  /** Distinct ids have distinct string forms. */
  lemma IdStringInjective(a: ObjectId, b: ObjectId)
    ensures IdString(a) == IdString(b) ==> a == b
  {
  }
}
