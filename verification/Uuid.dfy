/** Canonical UUID text (section 4 of RFC 9562) and the lenient reader of github.com/google/uuid. */
module Uuid {
  import opened Base

  function HexChar(n: int): char
    requires 0 <= n < 16
  {
    if n < 10 then ('0' as int + n) as char else ('a' as int + (n - 10)) as char
  }

  function HexValue(c: char): Option<int> {
    if '0' <= c <= '9' then Some(c as int - '0' as int)
    else if 'a' <= c <= 'f' then Some(c as int - 'a' as int + 10)
    else if 'A' <= c <= 'F' then Some(c as int - 'A' as int + 10)
    else None
  }

  lemma HexValueOfChar(n: int)
    requires 0 <= n < 16
    ensures HexValue(HexChar(n)) == Some(n)
  {
  }

  function Hi(b: byte): char { HexChar(b as int / 16) }

  function Lo(b: byte): char { HexChar(b as int % 16) }

  predicate IsDash(i: nat) {
    i == 8 || i == 13 || i == 18 || i == 23
  }

  /** The index among the 32 digits of the character at `i`, which is not a dash. */
  function DigitIndex(i: nat): (d: nat)
    requires i < 36 && !IsDash(i)
    ensures d < 32
  {
    if i < 8 then i else if i < 13 then i - 1 else if i < 18 then i - 2 else if i < 23 then i - 3 else i - 4
  }

  function DigitChar(b: Bytes16, d: nat): char
    requires d < 32
  {
    if d % 2 == 0 then Hi(b[d / 2]) else Lo(b[d / 2])
  }

  /** Lower-case hexadecimal in groups of 8-4-4-4-12. */
  function ToString(u: UUID): (s: string)
    ensures |s| == 36
  {
    seq(36, i requires 0 <= i < 36 => if IsDash(i) then '-' else DigitChar(u.bytes, DigitIndex(i)))
  }

  /** Where the two hexadecimal digits of byte `k` start in the dashed form. */
  function DashedOffset(k: nat): (o: nat)
    requires k < 16
    ensures o <= 34
  {
    2 * k + (if k < 4 then 0 else if k < 6 then 1 else if k < 8 then 2 else if k < 10 then 3 else 4)
  }

  predicate HexPair(s: string, o: nat)
    requires o + 1 < |s|
  {
    HexValue(s[o]).Some? && HexValue(s[o + 1]).Some?
  }

  function HexByte(s: string, o: nat): byte
    requires o + 1 < |s| && HexPair(s, o)
  {
    (HexValue(s[o]).value * 16 + HexValue(s[o + 1]).value) as byte
  }

  function ParseDashed(s: string): Option<UUID>
    requires |s| >= 36
  {
    if s[8] == '-' && s[13] == '-' && s[18] == '-' && s[23] == '-'
       && forall k :: 0 <= k < 16 ==> HexPair(s, DashedOffset(k))
    then Some(UUID(seq(16, k requires 0 <= k < 16 => HexByte(s, DashedOffset(k)))))
    else None
  }

  function LowerAscii(c: char): char {
    if 'A' <= c <= 'Z' then (c as int + 32) as char else c
  }

  predicate UrnPrefix(s: string)
    requires |s| >= 9
  {
    forall i :: 0 <= i < 9 ==> LowerAscii(s[i]) == "urn:uuid:"[i]
  }

  /**
   * The four accepted lengths: dashed, dashed after "urn:uuid:", dashed between two unchecked
   * characters, and 32 bare digits. A character outside ASCII makes every form fail.
   */
  function Parse(s: string): Option<UUID> {
    if exists i :: 0 <= i < |s| && s[i] >= 0x80 as char then None
    else if |s| == 36 then ParseDashed(s)
    else if |s| == 45 then (if UrnPrefix(s) then ParseDashed(s[9..]) else None)
    else if |s| == 38 then ParseDashed(s[1..])
    else if |s| == 32 then
      if forall k :: 0 <= k < 16 ==> HexPair(s, 2 * k)
      then Some(UUID(seq(16, k requires 0 <= k < 16 => HexByte(s, 2 * k))))
      else None
    else None
  }

  predicate IsLowerHex(c: char) {
    '0' <= c <= '9' || 'a' <= c <= 'f'
  }

  lemma HexRoundTrip(b: byte)
    ensures HexValue(Hi(b)) == Some(b as int / 16) && HexValue(Lo(b)) == Some(b as int % 16)
    ensures IsLowerHex(Hi(b)) && IsLowerHex(Lo(b))
  {
  }

  lemma DigitsAt(u: UUID, k: nat)
    requires k < 16
    ensures HexPair(ToString(u), DashedOffset(k)) && HexByte(ToString(u), DashedOffset(k)) == u.bytes[k]
  {
    HexRoundTrip(u.bytes[k]);
    assert DigitIndex(DashedOffset(k)) == 2 * k && DigitIndex(DashedOffset(k) + 1) == 2 * k + 1;
  }

  /** Canonical text holds nothing but lower-case digits and dashes. */
  lemma CanonicalChars(u: UUID, i: nat)
    requires i < 36
    ensures IsLowerHex(ToString(u)[i]) || ToString(u)[i] == '-'
  {
    if !IsDash(i) {
      HexRoundTrip(u.bytes[DigitIndex(i) / 2]);
    }
  }

  lemma ParseToString(u: UUID)
    ensures Parse(ToString(u)) == Some(u)
  {
    var s := ToString(u);
    forall i | 0 <= i < |s| ensures s[i] < 0x80 as char {
      CanonicalChars(u, i);
    }
    forall k | 0 <= k < 16 ensures HexPair(s, DashedOffset(k)) && HexByte(s, DashedOffset(k)) == u.bytes[k] {
      DigitsAt(u, k);
    }
    assert seq(16, k requires 0 <= k < 16 => HexByte(s, DashedOffset(k))) == u.bytes;
  }
}
