/** Text as every written form of the engine uses it: runs of digits, one thing split from the next, and
    lines. */
module Text {
  import opened Wrappers

  // ---------------------------------------------------------------------------------------------
  // Digits

  function DigitChar(n: nat): char
    requires n < 10
  {
    "0123456789"[n]
  }

  function DigitValue(c: char): nat
    requires '0' <= c <= '9'
  {
    c as int - '0' as int
  }

  predicate IsDigits(text: string) {
    text != [] && forall i :: 0 <= i < |text| ==> '0' <= text[i] <= '9'
  }

  /** A number as the crate writes one: its digits, no more than it needs. */
  function Decimal(n: nat): (text: string)
    ensures IsDigits(text)
  {
    if n < 10 then [DigitChar(n)] else Decimal(n / 10) + [DigitChar(n % 10)]
  }

  /** A number in exactly `width` digits. */
  function Padded(n: nat, width: nat): (text: string)
    ensures |text| == width && (width > 0 ==> IsDigits(text))
  {
    if width == 0 then [] else Padded(n / 10, width - 1) + [DigitChar(n % 10)]
  }

  function Value(text: string): nat
    requires text == [] || IsDigits(text)
  {
    if text == [] then 0 else Value(text[..|text| - 1]) * 10 + DigitValue(text[|text| - 1])
  }

  /** Digits hold nothing else. */
  lemma DigitsOnly(text: string, c: char)
    requires text == [] || IsDigits(text)
    requires c < '0' || c > '9'
    ensures c !in text
  {}

  lemma DigitReads(n: nat)
    requires n < 10
    ensures DigitValue(DigitChar(n)) == n
  {}

  lemma {:induction false} DecimalValue(n: nat)
    ensures Value(Decimal(n)) == n
  {
    if n >= 10 {
      DecimalValue(n / 10);
      assert Decimal(n)[..|Decimal(n)| - 1] == Decimal(n / 10);
    } else {
      assert Decimal(n)[..0] == [];
    }
  }

  function Tens(width: nat): nat {
    if width == 0 then 1 else 10 * Tens(width - 1)
  }

  lemma {:induction false} PaddedValue(n: nat, width: nat)
    requires n < Tens(width)
    ensures Value(Padded(n, width)) == n
  {
    if width > 0 {
      assert n / 10 < Tens(width - 1);
      PaddedValue(n / 10, width - 1);
      assert Padded(n, width)[..width - 1] == Padded(n / 10, width - 1);
      assert Padded(n, width)[width - 1] == DigitChar(n % 10);
      DigitReads(n % 10);
    }
  }

  /** The value of a non-empty run of digits, if it is at most `most`. */
  function ReadDigits(text: string, most: nat): Option<nat> {
    if IsDigits(text) && Value(text) <= most then Some(Value(text)) else None
  }

  lemma DigitsRoundTrip(n: nat, most: nat)
    requires n <= most
    ensures ReadDigits(Decimal(n), most) == Some(n)
  {
    DecimalValue(n);
  }

  // ---------------------------------------------------------------------------------------------
  // Splitting

  predicate StartsWith(text: string, start: string) {
    |start| <= |text| && text[..|start|] == start
  }

  function StripPrefix(text: string, start: string): Option<string> {
    if StartsWith(text, start) then Some(text[|start|..]) else None
  }

  lemma StripPrefixed(start: string, rest: string)
    ensures StripPrefix(start + rest, start) == Some(rest)
  {}

  /** The text before the first `sep` and the text after it, if there is one. */
  function SplitOnce(text: string, sep: string): Option<(string, string)> {
    if StartsWith(text, sep) then Some(("", text[|sep|..]))
    else if text == [] then None
    else match SplitOnce(text[1..], sep)
      case None => None
      case Some((a, b)) => Some(([text[0]] + a, b))
  }

  /** Wherever `sep` might begin inside `a`, its second character is missing. */
  predicate Unsplit(a: string, sep: string) {
    |sep| > 0
    && forall i :: 0 <= i < |a| && a[i] == sep[0] ==> |sep| > 1 && i + 1 < |a| && a[i + 1] != sep[1]
  }

  lemma NotHere(text: string, sep: string)
    requires sep != [] && text != []
    requires text[0] == sep[0] ==> |sep| > 1 && |text| > 1 && text[1] != sep[1]
    ensures !StartsWith(text, sep)
  {
    if |sep| <= |text| {
      assert text[..|sep|][0] == text[0] && (|sep| > 1 ==> text[..|sep|][1] == text[1]);
    }
  }

  lemma {:induction false} SplitHere(a: string, sep: string, b: string)
    requires Unsplit(a, sep)
    ensures SplitOnce(a + sep + b, sep) == Some((a, b))
  {
    var text := a + sep + b;
    if a == [] {
      assert text == sep + b;
    } else {
      assert text[0] == a[0] && (|a| > 1 ==> text[1] == a[1]);
      assert text[1..] == a[1..] + sep + b;
      SplitHere(a[1..], sep, b);
      assert [a[0]] + a[1..] == a;
      NotHere(text, sep);
    }
  }

  // ---------------------------------------------------------------------------------------------
  // Lines

  /** Whether text is one line of a file that reads back as itself. */
  predicate OneLine(text: string) {
    '\n' !in text && '\r' !in text
  }

  lemma OneLines(a: string, b: string)
    requires OneLine(a) && OneLine(b)
    ensures OneLine(a + b)
  {}

  /** The lines of a text: up to each line feed, less a carriage return before it, and whatever is left
      after the last if there is anything. */
  function Lines(text: string): seq<string> {
    LinesFrom([], text)
  }

  function LinesFrom(line: string, text: string): seq<string>
    decreases |text|
  {
    if text == [] then (if line == [] then [] else [line])
    else if text[0] == '\n' then
      [if line != [] && line[|line| - 1] == '\r' then line[..|line| - 1] else line] + LinesFrom([], text[1..])
    else LinesFrom(line + [text[0]], text[1..])
  }

  function Unlines(lines: seq<string>): string {
    if lines == [] then [] else lines[0] + "\n" + Unlines(lines[1..])
  }

  /** One more line written out. */
  lemma {:induction false} UnlinesMore(lines: seq<string>, n: nat)
    requires n < |lines|
    ensures Unlines(lines[..n + 1]) == Unlines(lines[..n]) + (lines[n] + "\n")
  {
    if n > 0 {
      UnlinesMore(lines[1..], n - 1);
      assert lines[..n + 1][1..] == lines[1..][..n] && lines[..n][1..] == lines[1..][..n - 1];
    } else {
      assert lines[..1][1..] == [];
    }
  }

  lemma NoLines(lines: seq<string>)
    ensures Unlines(lines[..0]) == []
  {}

  lemma {:induction false} LineFrom(begun: string, line: string, rest: string)
    requires OneLine(begun) && OneLine(line)
    ensures LinesFrom(begun, line + "\n" + rest) == [begun + line] + LinesFrom([], rest)
    decreases |line|
  {
    var text := line + "\n" + rest;
    if line == [] {
      assert text == "\n" + rest && begun + line == begun;
      assert text[1..] == rest;
    } else {
      assert text[1..] == line[1..] + "\n" + rest;
      LineFrom(begun + [line[0]], line[1..], rest);
      assert begun + [line[0]] + line[1..] == begun + line;
    }
  }

  /** What is written a line at a time reads back as those lines. */
  lemma {:induction false} LinesRoundTrip(lines: seq<string>)
    requires forall i :: 0 <= i < |lines| ==> OneLine(lines[i])
    ensures Lines(Unlines(lines)) == lines
  {
    if lines != [] {
      LineFrom([], lines[0], Unlines(lines[1..]));
      LinesRoundTrip(lines[1..]);
      assert [] + lines[0] == lines[0];
      assert lines == [lines[0]] + lines[1..];
    }
  }
}
