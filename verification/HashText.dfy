/** The written form of a state's name: 64 lowercase hexadecimal digits. */
module HashText {
  import opened Bytes
  import opened Tree
  import opened Wrappers

  function HexChar(n: int): char
    requires 0 <= n < 16
  {
    if n < 10 then ('0' as int + n) as char else ('a' as int + n - 10) as char
  }

  function HexText(bs: seq<byte>): string {
    if bs == [] then [] else [HexChar(bs[0] / 16), HexChar(bs[0] % 16)] + HexText(bs[1..])
  }

  function HexDigit(c: char): Option<byte> {
    if '0' <= c <= '9' then Some(c as int - '0' as int)
    else if 'a' <= c <= 'f' then Some(c as int - 'a' as int + 10)
    else None
  }

  datatype ParseStateHashError = BadTextLength(found: nat) | BadDigit

  lemma TooShort(text: string, d: Digest)
    requires |Utf8(text)| != 64 || |text| != 64
    ensures HexText(d) != text
  {
    HexTextSize(d);
  }

  lemma NoDigit(text: string, i: nat, d: Digest)
    requires i < |text| && HexDigit(text[i]).None?
    ensures HexText(d) != text
  {
    if HexText(d) == text { HexTextAt(d, i); }
  }

  lemma HexDigitChar(c: char)
    requires HexDigit(c).Some?
    ensures HexChar(HexDigit(c).value) == c && HexDigit(c).value < 16
  {}

  /** Reads a written hash back, and refuses every other text. Its length is counted in bytes. */
  method ReadHash(text: string) returns (r: Result<Digest, ParseStateHashError>)
    ensures r.Ok? ==> HexText(r.value) == text
    ensures r.Err? ==> r.error == if |Utf8(text)| == 64 then BadDigit else BadTextLength(|Utf8(text)|)
    ensures r.Err? ==> forall d: Digest :: HexText(d) != text
    ensures r == HashOf(text)
  {
    if |Utf8(text)| != 64 {
      forall d: Digest ensures HexText(d) != text { TooShort(text, d); }
      return Err(BadTextLength(|Utf8(text)|));
    }
    var bs: seq<byte> := [];
    var i := 0;
    while i + 1 < |text|
      invariant 0 <= i <= |text| && 2 * |bs| == i
      invariant HexText(bs) == text[..i]
      decreases |text| - i
    {
      var high, low := HexDigit(text[i]), HexDigit(text[i + 1]);
      if high.None? {
        forall d: Digest ensures HexText(d) != text { NoDigit(text, i, d); }
        NamesNothing(text);
        return Err(BadDigit);
      }
      if low.None? {
        forall d: Digest ensures HexText(d) != text { NoDigit(text, i + 1, d); }
        NamesNothing(text);
        return Err(BadDigit);
      }
      HexDigitChar(text[i]);
      HexDigitChar(text[i + 1]);
      var b := high.value * 16 + low.value;
      assert b / 16 == high.value && b % 16 == low.value;
      HexTextSnoc(bs, b);
      assert text[..i + 2] == text[..i] + [text[i], text[i + 1]];
      bs := bs + [b];
      i := i + 2;
    }
    if |bs| != 32 || i != |text| {
      // Fewer characters than bytes: one of them was no digit at all.
      Utf8Longer(text);
      forall d: Digest ensures HexText(d) != text { HexTextSize(d); }
      NamesNothing(text);
      return Err(BadDigit);
    }
    assert text[..i] == text;
    HashOfRoundTrip(bs);
    return Ok(bs);
  }

  lemma NamesNothing(text: string)
    requires forall d: Digest :: HexText(d) != text
    ensures HashOf(text).Err?
  {
    if |FromHex(text)| == 32 {
      var d: Digest := FromHex(text);
      assert HexText(d) != text;
    }
  }

  lemma {:induction false} HexTextSnoc(bs: seq<byte>, b: byte)
    ensures HexText(bs + [b]) == HexText(bs) + [HexChar(b / 16), HexChar(b % 16)]
  {
    if bs != [] {
      HexTextSnoc(bs[1..], b);
      assert (bs + [b])[1..] == bs[1..] + [b];
    } else {
      assert [b][1..] == [];
    }
  }

  lemma {:induction false} HexTextSize(bs: seq<byte>)
    ensures |HexText(bs)| == 2 * |bs|
    ensures |Utf8(HexText(bs))| == 2 * |bs|
  {
    if bs != [] {
      HexTextSize(bs[1..]);
      var text := HexText(bs);
      assert text[1..][1..] == HexText(bs[1..]);
      assert |EncodeChar(text[0])| == 1 && |EncodeChar(text[1])| == 1;
      assert text[1..][0] == text[1];
    }
  }

  lemma {:induction false} HexTextAt(bs: seq<byte>, i: nat)
    requires i < |HexText(bs)|
    ensures HexDigit(HexText(bs)[i]).Some?
  {
    if i >= 2 { HexTextAt(bs[1..], i - 2); }
  }

  function FromHex(text: string): seq<byte> {
    if |text| < 2 || HexDigit(text[0]).None? || HexDigit(text[1]).None? then []
    else [HexDigit(text[0]).value * 16 + HexDigit(text[1]).value] + FromHex(text[2..])
  }

  lemma {:induction false} HexRoundTrip(bs: seq<byte>)
    ensures FromHex(HexText(bs)) == bs
  {
    if bs != [] {
      assert HexText(bs)[2..] == HexText(bs[1..]);
      HexRoundTrip(bs[1..]);
    }
  }

  lemma HexTextInjective(a: seq<byte>, b: seq<byte>)
    requires HexText(a) == HexText(b)
    ensures a == b
  {
    HexRoundTrip(a);
    HexRoundTrip(b);
  }

  lemma {:induction false} Utf8Longer(text: string)
    ensures |text| <= |Utf8(text)|
  {
    if text != [] { Utf8Longer(text[1..]); }
  }

  /** The state a text names, or why it names none. */
  function HashOf(text: string): Result<Digest, ParseStateHashError> {
    if |Utf8(text)| != 64 then Err(BadTextLength(|Utf8(text)|))
    else if |FromHex(text)| != 32 || HexText(FromHex(text)) != text then Err(BadDigit)
    else Ok(FromHex(text))
  }

  lemma HashOfRoundTrip(d: Digest)
    ensures HashOf(HexText(d)) == Ok(d)
  {
    HexTextSize(d);
    HexRoundTrip(d);
  }

  lemma {:induction false} HexIsWord(bs: seq<byte>)
    ensures ' ' !in HexText(bs) && '\n' !in HexText(bs) && '\r' !in HexText(bs)
  {
    if bs != [] { HexIsWord(bs[1..]); }
  }
}
