/** The written form of an instant: seconds, and nine digits of nanoseconds. */
module ClockText {
  import opened Bytes
  import opened Clock
  import opened Text
  import opened Wrappers

  const SECOND := 1_000_000_000
  const FRACTION_DIGITS := 9

  function WriteTime(at: u64): string {
    Decimal(at / SECOND) + "." + Padded(at % SECOND, FRACTION_DIGITS) + "s"
  }

  datatype ParseTimeError = Malformed | FractionWidth(digits: nat) | Overflow

  function ReadDecimal(text: string): Result<u64, ParseTimeError> {
    if !IsDigits(text) then Err(Malformed)
    else if Value(text) > END_OF_TIME then Err(Overflow)
    else Ok(Value(text))
  }

  function ReadTime(text: string): Result<u64, ParseTimeError> {
    if text == [] || text[|text| - 1] != 's' then Err(Malformed)
    else match SplitOnce(text[..|text| - 1], ".")
      case None => Err(Malformed)
      case Some((seconds, fraction)) =>
        if |Utf8(fraction)| != FRACTION_DIGITS then Err(FractionWidth(|Utf8(fraction)|))
        else match ReadDecimal(seconds)
          case Err(e) => Err(e)
          case Ok(s) =>
            match ReadDecimal(fraction)
            case Err(e) => Err(e)
            case Ok(n) => if s * SECOND + n > END_OF_TIME then Err(Overflow) else Ok(s * SECOND + n)
  }

  lemma {:induction false} DigitsUtf8(text: string)
    requires text == [] || IsDigits(text)
    ensures |Utf8(text)| == |text|
  {
    if text != [] {
      assert text[1..] == [] || IsDigits(text[1..]);
      DigitsUtf8(text[1..]);
    }
  }

  /** Every instant reads back as itself, the end of time included. */
  lemma TimeRoundTrip(at: u64)
    ensures ReadTime(WriteTime(at)) == Ok(at)
  {
    var seconds, fraction := Decimal(at / SECOND), Padded(at % SECOND, FRACTION_DIGITS);
    assert WriteTime(at)[..|WriteTime(at)| - 1] == seconds + "." + fraction;
    DigitsOnly(seconds, '.');
    SplitHere(seconds, ".", fraction);
    DigitsUtf8(fraction);
    DecimalValue(at / SECOND);
    NineTens();
    PaddedValue(at % SECOND, FRACTION_DIGITS);
  }

  lemma NineTens()
    ensures Tens(9) == SECOND
  {
    assert Tens(3) == 1_000 && Tens(6) == 1_000 * Tens(3) && Tens(9) == 1_000 * Tens(6);
  }

  /** An instant is one word. */
  lemma TimeIsWord(at: u64)
    ensures ' ' !in WriteTime(at) && OneLine(WriteTime(at)) && WriteTime(at) != []
    ensures '0' <= WriteTime(at)[0] <= '9'
  {
    DigitsOnly(Decimal(at / SECOND), ' ');
    DigitsOnly(Padded(at % SECOND, FRACTION_DIGITS), ' ');
    DigitsOnly(Decimal(at / SECOND), '\n');
    DigitsOnly(Padded(at % SECOND, FRACTION_DIGITS), '\n');
    DigitsOnly(Decimal(at / SECOND), '\r');
    DigitsOnly(Padded(at % SECOND, FRACTION_DIGITS), '\r');
  }
}
