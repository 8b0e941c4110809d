/**
 Percent-encoding of UTF-8 bytes (sections 2.1 and 2.3 of RFC 3986) and the decoding that
 `Uri.UnescapeDataString` does: well-formed escapes become characters, anything else is left alone.
 */
module PercentCoding {

  datatype Decoded = Plain | Decoded(c: char, length: nat)

  function HexValue(c: char): (v: int)
    ensures -1 <= v < 16
  {
    if '0' <= c <= '9' then c as int - '0' as int
    else if 'A' <= c <= 'F' then c as int - 'A' as int + 10
    else if 'a' <= c <= 'f' then c as int - 'a' as int + 10
    else -1
  }

  /** The byte of the escape `%XX` at position `i`, or -1. */
  function ByteAt(s: string, i: nat): (b: int)
    ensures -1 <= b < 256
    ensures b >= 0 ==> i + 2 < |s|
  {
    if i + 2 < |s| && s[i] == '%' && HexValue(s[i + 1]) >= 0 && HexValue(s[i + 2]) >= 0
    then HexValue(s[i + 1]) * 16 + HexValue(s[i + 2])
    else -1
  }

  predicate IsScalar(n: int) {
    0 <= n < 0xD800 || 0xE000 <= n <= 0x10FFFF
  }

  predicate Continues(b: int) {
    0x80 <= b <= 0xBF
  }

  function Scalar(n: int, least: int, length: nat): Decoded {
    if least <= n && IsScalar(n) then Decoded(n as char, length) else Plain
  }

  /** The character whose UTF-8 escapes start `s`, shortest form only. */
  function DecodeAt(s: string): (r: Decoded)
    ensures r.Decoded? ==> 3 <= r.length <= |s| && s[0] == '%'
  {
    var a, b, c, d := ByteAt(s, 0), ByteAt(s, 3), ByteAt(s, 6), ByteAt(s, 9);
    if 0 <= a < 0x80 then Decoded(a as char, 3)
    else if 0xC0 <= a < 0xE0 && Continues(b) then Scalar((a - 0xC0) * 64 + (b - 0x80), 0x80, 6)
    else if 0xE0 <= a < 0xF0 && Continues(b) && Continues(c) then
      Scalar(((a - 0xE0) * 64 + (b - 0x80)) * 64 + (c - 0x80), 0x800, 9)
    else if 0xF0 <= a < 0xF8 && Continues(b) && Continues(c) && Continues(d) then
      Scalar((((a - 0xF0) * 64 + (b - 0x80)) * 64 + (c - 0x80)) * 64 + (d - 0x80), 0x10000, 12)
    else Plain
  }

  function Decode(s: string): (r: string)
    ensures |r| <= |s|
    decreases |s|
  {
    if s == "" then ""
    else
      var d := DecodeAt(s);
      if d.Decoded? then [d.c] + Decode(s[d.length..]) else [s[0]] + Decode(s[1..])
  }

  /** No position of `s` starts an escape that decodes. */
  predicate NoEscapes(s: string) {
    forall i :: 0 <= i < |s| ==> DecodeAt(s[i..]).Plain?
  }

  /** Decoding leaves exactly the strings without escapes as they are. */
  lemma {:induction false} DecodeIsIdentity(s: string)
    ensures Decode(s) == s <==> NoEscapes(s)
    decreases |s|
  {
    if s != "" {
      assert s[0..] == s;
      assert s == [s[0]] + s[1..];
      DecodeIsIdentity(s[1..]);
      assert forall i :: 0 <= i < |s| - 1 ==> s[1..][i..] == s[i + 1..];
      if NoEscapes(s[1..]) && DecodeAt(s).Plain? {
        forall i | 0 <= i < |s| ensures DecodeAt(s[i..]).Plain? {
          if i > 0 {
            assert s[1..][i - 1..] == s[i..];
          }
        }
      }
      if NoEscapes(s) {
        forall i | 0 <= i < |s| - 1 ensures DecodeAt(s[1..][i..]).Plain? {
          assert DecodeAt(s[i + 1..]).Plain?;
        }
      }
    }
  }

  // ----- encoding -----

  predicate Unreserved(c: char) {
    'A' <= c <= 'Z' || 'a' <= c <= 'z' || '0' <= c <= '9' || c == '-' || c == '.' || c == '_' || c == '~'
  }

  function HexDigit(n: nat): char
    requires n < 16
  {
    if n < 10 then (n + '0' as int) as char else (n - 10 + 'A' as int) as char
  }

  function Escape(b: nat): (e: string)
    requires b < 256
    ensures |e| == 3
  {
    ['%', HexDigit(b / 16), HexDigit(b % 16)]
  }

  function EncodeChar(c: char): string {
    var n := c as int;
    if Unreserved(c) then [c]
    else if n < 0x80 then Escape(n)
    else if n < 0x800 then Escape(0xC0 + n / 64) + Escape(0x80 + n % 64)
    else if n < 0x10000 then Escape(0xE0 + n / 4096) + Escape(0x80 + n / 64 % 64) + Escape(0x80 + n % 64)
    else Escape(0xF0 + n / 262144) + Escape(0x80 + n / 4096 % 64) + Escape(0x80 + n / 64 % 64) + Escape(0x80 + n % 64)
  }

  function Encode(s: string): string {
    if s == "" then "" else EncodeChar(s[0]) + Encode(s[1..])
  }

  /** Hexadecimal digits by their ASCII codes, read in either case, the high one first. */
  lemma HexDigits(c: char, high: nat, low: nat)
    requires high < 16 && low < 16
    ensures HexValue(c) == high <==>
              if high < 10 then c as int == 48 + high else c as int == 55 + high || c as int == 87 + high
    ensures HexDigit(high) as int == if high < 10 then 48 + high else 55 + high
    ensures Escape(16 * high + low) == ['%', HexDigit(high), HexDigit(low)]
  {
    assert (16 * high + low) / 16 == high && (16 * high + low) % 16 == low;
  }

  /** One, two, three and four UTF-8 bytes. */
  lemma EscapeExamples()
    ensures Decode("%2F") == "/" && Decode("%2f") == "/"
    ensures DecodeAt("%C3%A9") == Decoded(0xE9 as char, 6)
    ensures DecodeAt("%E2%82%AC") == Decoded(0x20AC as char, 9)
    ensures DecodeAt("%F0%90%8D%88") == Decoded(0x10348 as char, 12)
  {
    assert DecodeAt("%2F") == Decoded('/', 3) && "%2F"[3..] == "";
    assert DecodeAt("%2f") == Decoded('/', 3) && "%2f"[3..] == "";
  }

  /** Over-long forms, surrogates, values beyond Unicode and broken escapes stay as they are. */
  lemma PlainExamples()
    ensures DecodeAt("%C0%AF").Plain? && DecodeAt("%ED%A0%80").Plain? && DecodeAt("%F4%90%80%80").Plain?
    ensures DecodeAt("%4").Plain? && DecodeAt("%4G").Plain? && DecodeAt("%C3A9").Plain?
  {
  }

  lemma HexRoundTrip(n: nat)
    requires n < 16
    ensures HexValue(HexDigit(n)) == n
  {
  }

  lemma EscapedByte(before: string, b: nat, after: string)
    requires b < 256
    ensures ByteAt(before + Escape(b) + after, |before|) == b
  {
    var s := before + Escape(b) + after;
    HexRoundTrip(b / 16);
    HexRoundTrip(b % 16);
    assert s[|before|] == '%' && s[|before| + 1] == HexDigit(b / 16) && s[|before| + 2] == HexDigit(b % 16);
  }

  lemma DecodeOne(b: nat, rest: string)
    requires b < 0x80
    ensures DecodeAt(Escape(b) + rest) == Decoded(b as char, 3)
  {
    EscapedByte("", b, rest);
    assert "" + Escape(b) + rest == Escape(b) + rest;
  }

  lemma DecodeTwo(a: nat, b: nat, rest: string)
    requires 0xC0 <= a < 0xE0 && Continues(b)
    ensures DecodeAt(Escape(a) + Escape(b) + rest) == Scalar((a - 0xC0) * 64 + (b - 0x80), 0x80, 6)
  {
    var s := Escape(a) + Escape(b) + rest;
    EscapedByte("", a, Escape(b) + rest);
    assert "" + Escape(a) + (Escape(b) + rest) == s;
    EscapedByte(Escape(a), b, rest);
  }

  lemma DecodeThree(a: nat, b: nat, c: nat, rest: string)
    requires 0xE0 <= a < 0xF0 && Continues(b) && Continues(c)
    ensures DecodeAt(Escape(a) + Escape(b) + Escape(c) + rest)
            == Scalar(((a - 0xE0) * 64 + (b - 0x80)) * 64 + (c - 0x80), 0x800, 9)
  {
    var s := Escape(a) + Escape(b) + Escape(c) + rest;
    EscapedByte("", a, Escape(b) + Escape(c) + rest);
    assert "" + Escape(a) + (Escape(b) + Escape(c) + rest) == s;
    EscapedByte(Escape(a), b, Escape(c) + rest);
    assert Escape(a) + Escape(b) + (Escape(c) + rest) == s;
    EscapedByte(Escape(a) + Escape(b), c, rest);
  }

  lemma DecodeFour(a: nat, b: nat, c: nat, d: nat, rest: string)
    requires 0xF0 <= a < 0xF8 && Continues(b) && Continues(c) && Continues(d)
    ensures DecodeAt(Escape(a) + Escape(b) + Escape(c) + Escape(d) + rest)
            == Scalar((((a - 0xF0) * 64 + (b - 0x80)) * 64 + (c - 0x80)) * 64 + (d - 0x80), 0x10000, 12)
  {
    var s := Escape(a) + Escape(b) + Escape(c) + Escape(d) + rest;
    EscapedByte("", a, Escape(b) + Escape(c) + Escape(d) + rest);
    assert "" + Escape(a) + (Escape(b) + Escape(c) + Escape(d) + rest) == s;
    EscapedByte(Escape(a), b, Escape(c) + Escape(d) + rest);
    assert Escape(a) + Escape(b) + (Escape(c) + Escape(d) + rest) == s;
    EscapedByte(Escape(a) + Escape(b), c, Escape(d) + rest);
    assert Escape(a) + Escape(b) + Escape(c) + (Escape(d) + rest) == s;
    EscapedByte(Escape(a) + Escape(b) + Escape(c), d, rest);
  }

  lemma SixBits(n: nat)
    ensures n / 64 / 64 == n / 4096 && n / 4096 / 64 == n / 262144
    ensures n == n / 64 * 64 + n % 64
    ensures n / 64 == n / 4096 * 64 + n / 64 % 64
    ensures n / 4096 == n / 262144 * 64 + n / 4096 % 64
  {
  }

  lemma TwoBytes(c: char, rest: string)
    requires 0x80 <= c as int < 0x800
    ensures DecodeAt(EncodeChar(c) + rest) == Decoded(c, 6) && |EncodeChar(c)| == 6
  {
    hide DecodeAt, Escape;
    var n := c as int;
    DecodeTwo(0xC0 + n / 64, 0x80 + n % 64, rest);
  }

  lemma ThreeBytes(c: char, rest: string)
    requires 0x800 <= c as int < 0x10000
    ensures DecodeAt(EncodeChar(c) + rest) == Decoded(c, 9) && |EncodeChar(c)| == 9
  {
    hide DecodeAt, Escape;
    var n := c as int;
    SixBits(n);
    DecodeThree(0xE0 + n / 4096, 0x80 + n / 64 % 64, 0x80 + n % 64, rest);
  }

  lemma FourBytes(c: char, rest: string)
    requires 0x10000 <= c as int
    ensures DecodeAt(EncodeChar(c) + rest) == Decoded(c, 12) && |EncodeChar(c)| == 12
  {
    hide DecodeAt, Escape;
    var n := c as int;
    SixBits(n);
    DecodeFour(0xF0 + n / 262144, 0x80 + n / 4096 % 64, 0x80 + n / 64 % 64, 0x80 + n % 64, rest);
  }

  lemma EncodedCharAt(c: char, rest: string)
    requires !Unreserved(c)
    ensures DecodeAt(EncodeChar(c) + rest) == Decoded(c, |EncodeChar(c)|)
  {
    if c as int < 0x80 {
      DecodeOne(c as int, rest);
    } else if c as int < 0x800 {
      TwoBytes(c, rest);
    } else if c as int < 0x10000 {
      ThreeBytes(c, rest);
    } else {
      FourBytes(c, rest);
    }
  }

  /** Each encoded character decodes to itself, whatever follows. */
  lemma DecodeEncodedChar(c: char, rest: string)
    ensures Decode(EncodeChar(c) + rest) == [c] + Decode(rest)
  {
    var s := EncodeChar(c) + rest;
    assert s[|EncodeChar(c)|..] == rest;
    if Unreserved(c) {
      assert DecodeAt(s).Plain?;
    } else {
      EncodedCharAt(c, rest);
    }
  }

  /** Decoding inverts encoding on every string. */
  lemma {:induction false} DecodeEncoded(s: string)
    ensures Decode(Encode(s)) == s
  {
    if s != "" {
      DecodeEncodedChar(s[0], Encode(s[1..]));
      DecodeEncoded(s[1..]);
    }
  }

  predicate Transparent(c: char) {
    Unreserved(c) || c == '%'
  }

  lemma HexDigitTransparent(n: nat)
    requires n < 16
    ensures Transparent(HexDigit(n))
  {
  }

  lemma EscapeTransparent(b: nat)
    requires b < 256
    ensures forall i :: 0 <= i < 3 ==> Transparent(Escape(b)[i])
  {
    HexDigitTransparent(b / 16);
    HexDigitTransparent(b % 16);
  }

  lemma EncodeCharTransparent(c: char)
    ensures forall i :: 0 <= i < |EncodeChar(c)| ==> Transparent(EncodeChar(c)[i])
  {
    forall b: nat | b < 256 ensures forall i :: 0 <= i < 3 ==> Transparent(Escape(b)[i]) {
      EscapeTransparent(b);
    }
  }

  /** Encoded text holds only unreserved characters and percent signs: none of `: / ? @`. */
  lemma {:induction false} EncodedIsTransparent(s: string)
    ensures forall i :: 0 <= i < |Encode(s)| ==> Transparent(Encode(s)[i])
  {
    if s != "" {
      EncodeCharTransparent(s[0]);
      EncodedIsTransparent(s[1..]);
    }
  }
}
