/** Bytes, and the two ways the engine writes something as them: a number in little-endian order, and
    text in UTF-8 (RFC 3629). */
module Bytes {
  import opened Wrappers

  type byte = x: int | 0 <= x < 256
  type u64 = x: int | 0 <= x < 0x1_0000_0000_0000_0000

  // ---------------------------------------------------------------------------------------------
  // Little-endian numbers

  function Span(width: nat): nat {
    if width == 0 then 1 else 256 * Span(width - 1)
  }

  /** `n` in `width` bytes, the lowest first. */
  function Le(n: nat, width: nat): (bs: seq<byte>)
    ensures |bs| == width
  {
    if width == 0 then [] else [n % 256] + Le(n / 256, width - 1)
  }

  function FromLe(bs: seq<byte>): nat {
    if bs == [] then 0 else bs[0] + 256 * FromLe(bs[1..])
  }

  lemma {:induction false} LeRoundTrip(n: nat, width: nat)
    requires n < Span(width)
    ensures FromLe(Le(n, width)) == n
  {
    if width > 0 {
      LeRoundTrip(n / 256, width - 1);
      assert Le(n, width)[1..] == Le(n / 256, width - 1);
    }
  }

  lemma {:induction false} FromLeRoundTrip(bs: seq<byte>)
    ensures FromLe(bs) < Span(|bs|)
    ensures Le(FromLe(bs), |bs|) == bs
  {
    if bs != [] {
      FromLeRoundTrip(bs[1..]);
      assert FromLe(bs) / 256 == FromLe(bs[1..]);
      assert FromLe(bs) % 256 == bs[0];
    }
  }

  lemma SpanEight()
    ensures Span(8) == 0x1_0000_0000_0000_0000
  {
    assert Span(4) == 0x1_0000_0000;
    assert Span(8) == 256 * Span(7) && Span(7) == 256 * Span(6) && Span(6) == 256 * Span(5);
  }

  // ---------------------------------------------------------------------------------------------
  // UTF-8

  function EncodeChar(c: char): (bs: seq<byte>)
    ensures 1 <= |bs| <= 4
  {
    var n := c as int;
    if n < 0x80 then [n]
    else if n < 0x800 then [0xC0 + n / 64, 0x80 + n % 64]
    else if n < 0x1_0000 then [0xE0 + n / 4096, 0x80 + n / 64 % 64, 0x80 + n % 64]
    else [0xF0 + n / 262144, 0x80 + n / 4096 % 64, 0x80 + n / 64 % 64, 0x80 + n % 64]
  }

  predicate Follows(b: byte) {
    0x80 <= b < 0xC0
  }

  /** Whether a number is one a character has. */
  predicate IsScalar(n: int) {
    0 <= n < 0xD800 || 0xE000 <= n < 0x11_0000
  }

  /** The number a run of a leading byte's bits and six-bit groups spells. */
  function Spell(a: int, b: int, c: int, d: int): int {
    a * 262144 + b * 4096 + c * 64 + d
  }

  /** The first character of well-formed text, and how many bytes it takes. */
  function DecodeChar(bs: seq<byte>): (r: Option<(char, nat)>)
    ensures r.Some? ==> 1 <= r.value.1 <= |bs|
  {
    if bs == [] then None
    else if bs[0] < 0x80 then Some((bs[0] as char, 1))
    else if 0xC2 <= bs[0] < 0xE0 && |bs| >= 2 && Follows(bs[1]) then
      Some((Spell(0, 0, bs[0] - 0xC0, bs[1] - 0x80) as char, 2))
    else if 0xE0 <= bs[0] < 0xF0 && |bs| >= 3 && Follows(bs[1]) && Follows(bs[2]) then
      var n := Spell(0, bs[0] - 0xE0, bs[1] - 0x80, bs[2] - 0x80);
      if n >= 0x800 && IsScalar(n) then Some((n as char, 3)) else None
    else if 0xF0 <= bs[0] < 0xF5 && |bs| >= 4 && Follows(bs[1]) && Follows(bs[2]) && Follows(bs[3]) then
      var n := Spell(bs[0] - 0xF0, bs[1] - 0x80, bs[2] - 0x80, bs[3] - 0x80);
      if n >= 0x1_0000 && IsScalar(n) then Some((n as char, 4)) else None
    else None
  }

  /** Six-bit groups come back out of the number they spell. */
  lemma Unspell(a: int, b: int, c: int, d: int)
    requires 0 <= b < 64 && 0 <= c < 64 && 0 <= d < 64
    ensures var n := Spell(a, b, c, d);
            n % 64 == d && n / 64 % 64 == c && n / 4096 % 64 == b && n / 262144 == a
            && n / 64 == a * 4096 + b * 64 + c && n / 4096 == a * 64 + b
  {
    var n := Spell(a, b, c, d);
    assert n == 64 * (a * 4096 + b * 64 + c) + d;
    assert n / 64 == a * 4096 + b * 64 + c;
    assert n == 4096 * (a * 64 + b) + (c * 64 + d);
    assert n / 4096 == a * 64 + b;
  }

  lemma Respell(n: int)
    requires 0 <= n
    ensures Spell(n / 262144, n / 4096 % 64, n / 64 % 64, n % 64) == n
    ensures n < 0x1_0000 ==> Spell(0, n / 4096, n / 64 % 64, n % 64) == n
    ensures n < 0x800 ==> Spell(0, 0, n / 64, n % 64) == n
  {
    var m := n / 64;
    var k := m / 64;
    assert n == 64 * m + n % 64 && m == 64 * k + m % 64 && k == 64 * (k / 64) + k % 64;
    assert n / 4096 == k && n / 262144 == k / 64;
  }

  lemma DecodeEncodedChar(c: char, rest: seq<byte>)
    ensures DecodeChar(EncodeChar(c) + rest) == Some((c, |EncodeChar(c)|))
  {
    var n := c as int;
    var bs := EncodeChar(c) + rest;
    Respell(n);
    if n < 0x80 {
      assert bs[0] == n;
    } else if n < 0x800 {
      assert bs[0] == 0xC0 + n / 64 && bs[1] == 0x80 + n % 64;
    } else if n < 0x1_0000 {
      assert bs[0] == 0xE0 + n / 4096 && bs[1] == 0x80 + n / 64 % 64 && bs[2] == 0x80 + n % 64;
    } else {
      assert bs[0] == 0xF0 + n / 262144 && bs[1] == 0x80 + n / 4096 % 64;
      assert bs[2] == 0x80 + n / 64 % 64 && bs[3] == 0x80 + n % 64;
    }
  }

  lemma EncodeDecodedChar(bs: seq<byte>)
    requires DecodeChar(bs).Some?
    ensures EncodeChar(DecodeChar(bs).value.0) == bs[..DecodeChar(bs).value.1]
  {
    var (c, k) := DecodeChar(bs).value;
    if k == 2 {
      Unspell(0, 0, bs[0] - 0xC0, bs[1] - 0x80);
    } else if k == 3 {
      Unspell(0, bs[0] - 0xE0, bs[1] - 0x80, bs[2] - 0x80);
    } else if k == 4 {
      Unspell(bs[0] - 0xF0, bs[1] - 0x80, bs[2] - 0x80, bs[3] - 0x80);
    }
  }

  function Utf8(text: string): seq<byte> {
    if text == [] then [] else EncodeChar(text[0]) + Utf8(text[1..])
  }

  /** The text `bs` is the UTF-8 of, if it is of any. */
  function FromUtf8(bs: seq<byte>): Option<string>
    decreases |bs|
  {
    if bs == [] then Some([])
    else match DecodeChar(bs)
      case None => None
      case Some((c, k)) =>
        match FromUtf8(bs[k..])
        case None => None
        case Some(rest) => Some([c] + rest)
  }

  lemma {:induction false} Utf8RoundTrip(text: string)
    ensures FromUtf8(Utf8(text)) == Some(text)
  {
    if text != [] {
      DecodeEncodedChar(text[0], Utf8(text[1..]));
      assert Utf8(text)[|EncodeChar(text[0])|..] == Utf8(text[1..]);
      Utf8RoundTrip(text[1..]);
      assert text == [text[0]] + text[1..];
    }
  }

  /** Bytes that decode at all are the encoding of what they decode to, so decoding is one to one. */
  lemma {:induction false} FromUtf8RoundTrip(bs: seq<byte>)
    requires FromUtf8(bs).Some?
    ensures Utf8(FromUtf8(bs).value) == bs
    decreases |bs|
  {
    hide DecodeChar, EncodeChar;
    if bs != [] {
      var (c, k) := DecodeChar(bs).value;
      EncodeDecodedChar(bs);
      FromUtf8RoundTrip(bs[k..]);
      assert bs == bs[..k] + bs[k..];
    }
  }

  lemma Utf8Injective(a: string, b: string)
    requires Utf8(a) == Utf8(b)
    ensures a == b
  {
    Utf8RoundTrip(a);
    Utf8RoundTrip(b);
  }
}
