/** The `%016llx` rendering of a 64-bit digest. */
module Hex {

  /** `UInt64` */
  newtype U64 = x: int | 0 <= x < 0x1_0000_0000_0000_0000

  const HexChars: string := "0123456789abcdef"

  function Pow16(n: nat): (r: nat)
    ensures r > 0
  {
    if n == 0 then 1 else 16 * Pow16(n - 1)
  }

  lemma Pow16Of16()
    ensures Pow16(16) == 0x1_0000_0000_0000_0000
  {
    assert Pow16(4) == 0x1_0000;
    assert Pow16(8) == 16 * 16 * 16 * 16 * Pow16(4);
    assert Pow16(12) == 16 * 16 * 16 * 16 * Pow16(8);
    assert Pow16(16) == 16 * 16 * 16 * 16 * Pow16(12);
  }

  /** A lowercase hexadecimal digit. */
  predicate IsLowerHexDigit(c: char) { '0' <= c <= '9' || 'a' <= c <= 'f' }

  /** The value of a lowercase hexadecimal digit. */
  function DigitValue(c: char): (d: nat)
    requires IsLowerHexDigit(c)
    ensures d < 16 && HexChars[d] == c
  {
    if '0' <= c <= '9' then c as int - '0' as int else c as int - 'a' as int + 10
  }

  /** `v` as exactly `n` hexadecimal digits, most significant first, zero-padded. */
  function ToHex(v: nat, n: nat): (r: string)
    requires v < Pow16(n)
    ensures |r| == n
    ensures forall i :: 0 <= i < |r| ==> IsLowerHexDigit(r[i])
  {
    if n == 0 then "" else ToHex(v / 16, n - 1) + [HexChars[v % 16]]
  }

  /** Reads a string of lowercase hexadecimal digits back as a number. */
  function FromHex(s: string): nat
    requires forall i :: 0 <= i < |s| ==> IsLowerHexDigit(s[i])
  {
    if |s| == 0 then 0 else FromHex(s[..|s| - 1]) * 16 + DigitValue(s[|s| - 1])
  }

  lemma DigitOfHexChar(d: nat)
    requires d < 16
    ensures IsLowerHexDigit(HexChars[d]) && DigitValue(HexChars[d]) == d
  {
  }

  lemma {:induction false} FromToHex(v: nat, n: nat)
    requires v < Pow16(n)
    ensures FromHex(ToHex(v, n)) == v
  {
    if n > 0 {
      var r := ToHex(v, n);
      var d := v % 16;
      assert r[..|r| - 1] == ToHex(v / 16, n - 1);
      assert r[|r| - 1] == HexChars[d];
      DigitOfHexChar(d);
      FromToHex(v / 16, n - 1);
      assert v == v / 16 * 16 + d;
    }
  }

  /** `String(format: "%016llx", v)` */
  function Format016llx(v: U64): (r: string)
    ensures |r| == 16
    ensures forall i :: 0 <= i < |r| ==> IsLowerHexDigit(r[i])
  {
    Pow16Of16();
    ToHex(v as nat, 16)
  }

  /**
    The rendering is injective, with `FromHex` as its left inverse: reading
    it back gives the digest, so two renderings are equal exactly when the
    digests are.
   */
  lemma FormatRoundTrip(v: U64, w: U64)
    ensures FromHex(Format016llx(v)) == v as nat
    ensures Format016llx(v) == Format016llx(w) <==> v == w
  {
    Pow16Of16();
    FromToHex(v as nat, 16);
    FromToHex(w as nat, 16);
  }
}
