/** Unpadded base64url, section 5 of RFC 4648, with the leniency of Go's non-strict decoder. */
module Base64Url {
  import opened Base

  type sextet = x: int | 0 <= x < 64

  function CharOf(v: sextet): char {
    if v < 26 then ('A' as int + v) as char
    else if v < 52 then ('a' as int + (v - 26)) as char
    else if v < 62 then ('0' as int + (v - 52)) as char
    else if v == 62 then '-' else '_'
  }

  function SextetOf(c: char): Option<sextet> {
    if 'A' <= c <= 'Z' then Some(c as int - 'A' as int)
    else if 'a' <= c <= 'z' then Some(c as int - 'a' as int + 26)
    else if '0' <= c <= '9' then Some(c as int - '0' as int + 52)
    else if c == '-' then Some(62)
    else if c == '_' then Some(63)
    else None
  }

  function Sextets(bs: seq<byte>): seq<sextet> {
    if |bs| == 0 then []
    else
      var b0 := bs[0] as int;
      if |bs| == 1 then [b0 / 4, b0 % 4 * 16]
      else
        var b1 := bs[1] as int;
        if |bs| == 2 then [b0 / 4, b0 % 4 * 16 + b1 / 16, b1 % 16 * 4]
        else
          var b2 := bs[2] as int;
          [b0 / 4, b0 % 4 * 16 + b1 / 16, b1 % 16 * 4 + b2 / 64, b2 % 64] + Sextets(bs[3..])
  }

  /** A final group of two or three characters ignores its unused low bits; one character is an error. */
  function Bytes(s: seq<sextet>): Option<seq<byte>> {
    if |s| == 0 then Some([])
    else if |s| == 1 then None
    else
      var v0: int, v1: int := s[0], s[1];
      var b0 := (v0 * 4 + v1 / 16) as byte;
      if |s| == 2 then Some([b0])
      else
        var v2: int := s[2];
        var b1 := (v1 % 16 * 16 + v2 / 4) as byte;
        if |s| == 3 then Some([b0, b1])
        else
          var v3: int := s[3];
          var b2 := (v2 % 4 * 64 + v3) as byte;
          match Bytes(s[4..])
          case None => None
          case Some(rest) => Some([b0, b1, b2] + rest)
  }

  function Text(s: seq<sextet>): string {
    seq(|s|, i requires 0 <= i < |s| => CharOf(s[i]))
  }

  /** Carriage returns and line feeds are skipped; any other character outside the alphabet is an error. */
  function Values(t: string): Option<seq<sextet>> {
    if t == [] then Some([])
    else if t[0] == '\r' || t[0] == '\n' then Values(t[1..])
    else
      match (SextetOf(t[0]), Values(t[1..]))
      case (Some(v), Some(rest)) => Some([v] + rest)
      case _ => None
  }

  function Encode(bs: seq<byte>): string {
    Text(Sextets(bs))
  }

  function Decode(t: string): Option<seq<byte>> {
    match Values(t)
    case None => None
    case Some(s) => Bytes(s)
  }

  lemma SextetOfCharOf(v: sextet)
    ensures SextetOf(CharOf(v)) == Some(v)
    ensures CharOf(v) != '\r' && CharOf(v) != '\n'
  {
  }

  lemma {:induction false} ValuesOfText(s: seq<sextet>)
    ensures Values(Text(s)) == Some(s)
  {
    if s != [] {
      assert Text(s)[0] == CharOf(s[0]) && Text(s)[1..] == Text(s[1..]);
      SextetOfCharOf(s[0]);
      ValuesOfText(s[1..]);
      assert s == [s[0]] + s[1..];
    }
  }

  lemma {:induction false} BytesOfSextets(bs: seq<byte>)
    ensures Bytes(Sextets(bs)) == Some(bs)
  {
    if |bs| == 1 {
      assert Sextets(bs) == [bs[0] as int / 4, bs[0] as int % 4 * 16];
      assert bs == [bs[0]];
    } else if |bs| == 2 {
      assert |Sextets(bs)| == 3;
      assert bs == [bs[0], bs[1]];
    } else if |bs| >= 3 {
      BytesOfSextets(bs[3..]);
      assert Sextets(bs)[4..] == Sextets(bs[3..]);
      assert bs == [bs[0], bs[1], bs[2]] + bs[3..];
    }
  }

  lemma DecodeEncode(bs: seq<byte>)
    ensures Decode(Encode(bs)) == Some(bs)
    ensures bs != [] ==> Encode(bs) != ""
  {
    ValuesOfText(Sextets(bs));
    BytesOfSextets(bs);
  }
}
