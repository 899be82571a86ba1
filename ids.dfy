/** The document store's identifier type: a 12-byte ObjectId, rendered by its
    `toString()` as 24 lower-case hexadecimal digits, most significant first. */
module ObjectIds {

  function Pow16(n: nat): (r: nat)
    ensures r >= 1
  {
    if n == 0 then 1 else 16 * Pow16(n - 1)
  }

  /** Number of hexadecimal digits in the string form of an ObjectId (12 bytes). */
  const IdDigits: nat := 24

  type ObjectId = v: nat | v < Pow16(IdDigits)

  predicate IsLowerHex(c: char) {
    '0' <= c <= '9' || 'a' <= c <= 'f'
  }

  function HexDigit(d: nat): (c: char)
    requires d < 16
    ensures IsLowerHex(c)
  {
    if d < 10 then ('0' as int + d) as char else ('a' as int + d - 10) as char
  }

  /** Digit value of a lower-case hexadecimal character; inverse of HexDigit. */
  function DigitValue(c: char): (d: nat)
    requires IsLowerHex(c)
    ensures d < 16 && HexDigit(d) == c
  {
    if c <= '9' then c as int - '0' as int else c as int - 'a' as int + 10
  }

  /** `v` written with exactly `width` hexadecimal digits, leading zeros kept. */
  function Hex(v: nat, width: nat): (s: string)
    requires v < Pow16(width)
    ensures |s| == width
    ensures forall i :: 0 <= i < |s| ==> IsLowerHex(s[i])
    decreases width
  {
    if width == 0 then ""
    else Hex(v / 16, width - 1) + [HexDigit(v % 16)]
  }

  /** `ObjectId.toString()`. */
  function IdString(id: ObjectId): (s: string)
    ensures |s| == IdDigits
    ensures forall i :: 0 <= i < |s| ==> IsLowerHex(s[i])
  {
    Hex(id, IdDigits)
  }

  lemma {:induction false} HexInjective(a: nat, b: nat, width: nat)
    requires a < Pow16(width) && b < Pow16(width)
    requires Hex(a, width) == Hex(b, width)
    ensures a == b
    decreases width
  {
    if width > 0 {
      var ha, hb := Hex(a, width), Hex(b, width);
      assert ha[..width - 1] == Hex(a / 16, width - 1);
      assert hb[..width - 1] == Hex(b / 16, width - 1);
      HexInjective(a / 16, b / 16, width - 1);
      assert DigitValue(ha[width - 1]) == a % 16;
      assert DigitValue(hb[width - 1]) == b % 16;
    }
  }

  /** Distinct ObjectIds have distinct string forms, so the API id determines the stored key. */
  lemma IdStringInjective(a: ObjectId, b: ObjectId)
    ensures IdString(a) == IdString(b) <==> a == b
  {
    if IdString(a) == IdString(b) {
      HexInjective(a, b, IdDigits);
    }
  }
}
