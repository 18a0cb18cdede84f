/** The written form of a schedule: its header, and a line for each fault in the order they stand. */
module FaultText {
  import opened Bytes
  import opened Clock
  import opened ClockText
  import opened Faults
  import opened Text
  import opened Wrappers

  const HEADER := "chronoloop faults"
  const FOREVER := "forever"
  const NODE := "node "
  const FROM := " from "
  const UNTIL := " until "
  const ON := " on "
  const TO := " -> "
  const IN := " in "
  const LOSS := "loss "
  const PARTITION := "partition"
  const OPENING := "from "
  const U32_END: nat := 0xFFFF_FFFF

  datatype ParseFaultError = BadFault | BadInstant(time: ParseTimeError) | BadOdds(odds: OddsError)
                           | BadWindow(window: WindowError)

  // ---------------------------------------------------------------------------------------------
  // The parts of a fault

  function WriteNode(n: u64): string {
    NODE + Decimal(n)
  }

  function ReadNode(text: string): Result<u64, ParseFaultError> {
    match StripPrefix(text, NODE)
    case None => Err(BadFault)
    case Some(index) =>
      match ReadDigits(index, END_OF_TIME)
      case None => Err(BadFault)
      case Some(n) => Ok(n)
  }

  function WriteSpan(w: Window): string {
    WriteTime(w.start) + UNTIL + (if w.end == END_OF_TIME then FOREVER else WriteTime(w.end))
  }

  /** A window as it is written, opening and all. */
  function ReadWindow(text: string): Result<Window, ParseFaultError> {
    match StripPrefix(text, OPENING)
    case None => Err(BadFault)
    case Some(span) =>
      match SplitOnce(span, UNTIL)
      case None => Err(BadFault)
      case Some((start, end)) =>
        match ReadTime(start)
        case Err(e) => Err(BadInstant(e))
        case Ok(s) =>
          if end == FOREVER then Ok(Window(s, END_OF_TIME))
          else match ReadTime(end)
            case Err(e) => Err(BadInstant(e))
            case Ok(t) =>
              match NewWindow(s, t)
              case Err(e) => Err(BadWindow(e))
              case Ok(w) => Ok(w)
  }

  function WriteOdds(o: Odds): string {
    Decimal(o.numerator) + IN + Decimal(o.denominator)
  }

  function ReadOdds(text: string): Result<Odds, ParseFaultError> {
    match SplitOnce(text, IN)
    case None => Err(BadFault)
    case Some((numerator, denominator)) =>
      match (ReadDigits(numerator, U32_END), ReadDigits(denominator, U32_END))
      case (Some(n), Some(d)) =>
        (match NewOdds(n, d)
         case Err(e) => Err(BadOdds(e))
         case Ok(o) => Ok(o))
      case _ => Err(BadFault)
  }

  function WriteKind(f: Fault): string {
    match f
    case Partition(_, _, _) => PARTITION
    case Loss(_, _, _, odds) => LOSS + WriteOdds(odds)
  }

  function WriteLink(f: Fault): string {
    WriteNode(f.sender) + TO + WriteNode(f.receiver)
  }

  function WriteFault(f: Fault): string {
    WriteKind(f) + ON + (WriteLink(f) + FROM + WriteSpan(f.during))
  }

  function ReadFault(text: string): Result<Fault, ParseFaultError> {
    match SplitOnce(text, ON)
    case None => Err(BadFault)
    case Some((kind, rest)) =>
      match SplitOnce(rest, FROM)
      case None => Err(BadFault)
      case Some((link, span)) =>
        match SplitOnce(link, TO)
        case None => Err(BadFault)
        case Some((sender, receiver)) =>
          match (ReadNode(sender), ReadNode(receiver), ReadWindow(OPENING + span))
          case (Err(e), _, _) => Err(e)
          case (_, Err(e), _) => Err(e)
          case (_, _, Err(e)) => Err(e)
          case (Ok(s), Ok(r), Ok(w)) =>
            if kind == PARTITION then Ok(Partition(s, r, w))
            else match StripPrefix(kind, LOSS)
              case None => Err(BadFault)
              case Some(named) =>
                match ReadOdds(named)
                case Err(e) => Err(e)
                case Ok(o) => Ok(Loss(s, r, w, o))
  }

  // ---------------------------------------------------------------------------------------------
  // Reading back

  lemma NodeRoundTrip(n: u64)
    ensures ReadNode(WriteNode(n)) == Ok(n)
  {
    StripPrefixed(NODE, Decimal(n));
    DigitsRoundTrip(n, END_OF_TIME);
  }

  lemma WindowRoundTrip(w: Window)
    ensures ReadWindow(OPENING + WriteSpan(w)) == Ok(w)
  {
    StripPrefixed(OPENING, WriteSpan(w));
    TimeIsWord(w.start);
    TimeRoundTrip(w.start);
    SplitHere(WriteTime(w.start), UNTIL, if w.end == END_OF_TIME then FOREVER else WriteTime(w.end));
    if w.end != END_OF_TIME {
      TimeRoundTrip(w.end);
      TimeIsWord(w.end);
      assert FOREVER[0] == 'f';
    }
  }

  lemma OddsRoundTrip(o: Odds)
    ensures ReadOdds(WriteOdds(o)) == Ok(o)
  {
    DigitsOnly(Decimal(o.numerator), ' ');
    SplitHere(Decimal(o.numerator), IN, Decimal(o.denominator));
    DigitsRoundTrip(o.numerator, U32_END);
    DigitsRoundTrip(o.denominator, U32_END);
  }

  lemma KindUnsplit(f: Fault)
    ensures Unsplit(WriteKind(f), ON)
  {
    if f.Loss? {
      var kind := WriteKind(f);
      var n, d := Decimal(f.odds.numerator), Decimal(f.odds.denominator);
      DigitsOnly(n, ' ');
      DigitsOnly(d, ' ');
      assert kind == LOSS + n + IN + d;
      forall i | 0 <= i < |kind| && kind[i] == ' ' ensures i + 1 < |kind| && kind[i + 1] != 'o' {
        assert i == 4 || i == 5 + |n| || i == 5 + |n| + 3;
      }
    }
  }

  lemma LinkSplits(f: Fault)
    ensures Unsplit(WriteLink(f), FROM) && Unsplit(WriteNode(f.sender), TO)
    ensures OneLine(WriteLink(f))
  {
    var s, r := Decimal(f.sender), Decimal(f.receiver);
    var link := WriteLink(f);
    DigitsOnly(s, ' ');
    DigitsOnly(r, ' ');
    DigitsOnly(s, '\n');
    DigitsOnly(r, '\n');
    DigitsOnly(s, '\r');
    DigitsOnly(r, '\r');
    assert link == NODE + s + TO + NODE + r;
    forall i | 0 <= i < |link| && link[i] == ' ' ensures i + 1 < |link| && link[i + 1] != 'f' {
      assert i == 4 || i == 5 + |s| || i == 5 + |s| + 3 || i == 5 + |s| + 4 + 4;
    }
  }

  /** Every fault reads back as itself. */
  lemma FaultRoundTrip(f: Fault)
    ensures ReadFault(WriteFault(f)) == Ok(f)
  {
    hide WriteTime, ReadTime, Decimal, ReadDigits, ReadWindow, ReadNode, ReadOdds, WriteSpan, WriteNode, WriteOdds;
    KindUnsplit(f);
    SplitHere(WriteKind(f), ON, WriteLink(f) + FROM + WriteSpan(f.during));
    LinkSplits(f);
    SplitHere(WriteLink(f), FROM, WriteSpan(f.during));
    SplitHere(WriteNode(f.sender), TO, WriteNode(f.receiver));
    NodeRoundTrip(f.sender);
    NodeRoundTrip(f.receiver);
    WindowRoundTrip(f.during);
    if f.Loss? {
      OddsRoundTrip(f.odds);
      StripPrefixed(LOSS, WriteOdds(f.odds));
      assert WriteKind(f)[0] == 'l' && PARTITION[0] == 'p';
    }
  }

  lemma FaultIsLine(f: Fault)
    ensures OneLine(WriteFault(f))
  {
    LinkSplits(f);
    TimeIsWord(f.during.start);
    TimeIsWord(f.during.end);
    hide WriteLink, WriteTime, Decimal, Unsplit;
    if f.Loss? {
      DigitsOnly(Decimal(f.odds.numerator), '\n');
      DigitsOnly(Decimal(f.odds.numerator), '\r');
      DigitsOnly(Decimal(f.odds.denominator), '\n');
      DigitsOnly(Decimal(f.odds.denominator), '\r');
    }
  }

  // ---------------------------------------------------------------------------------------------
  // A schedule

  function FaultLines(faults: seq<Fault>): (lines: seq<string>)
    ensures |lines| == |faults| && forall i :: 0 <= i < |faults| ==> lines[i] == WriteFault(faults[i])
  {
    seq(|faults|, i requires 0 <= i < |faults| => WriteFault(faults[i]))
  }

  function WriteSchedule(faults: seq<Fault>): string {
    Unlines([HEADER] + FaultLines(faults))
  }

  /** Writes a schedule out a line at a time. */
  method PrintSchedule(faults: seq<Fault>) returns (text: string)
    ensures text == WriteSchedule(faults)
  {
    hide WriteFault, Unlines, FaultLines;
    ghost var lines := [HEADER] + FaultLines(faults);
    NoLines(lines);
    UnlinesMore(lines, 0);
    text := HEADER + "\n";
    var n := 0;
    while n < |faults|
      invariant 0 <= n <= |faults| && text == Unlines(lines[..n + 1])
    {
      UnlinesMore(lines, n + 1);
      text := text + (WriteFault(faults[n]) + "\n");
      n := n + 1;
    }
    assert lines[..|lines|] == lines;
  }

  datatype ParseScheduleError = MissingHeader | BadHeader | BadFaultLine(line: nat, error: ParseFaultError)

  function ReadFaults(lines: seq<string>, line: nat): Result<seq<Fault>, ParseScheduleError> {
    if lines == [] then Ok([])
    else match ReadFault(lines[0])
      case Err(e) => Err(BadFaultLine(line, e))
      case Ok(f) =>
        match ReadFaults(lines[1..], line + 1)
        case Err(e) => Err(e)
        case Ok(rest) => Ok([f] + rest)
  }

  function ReadSchedule(text: string): Result<seq<Fault>, ParseScheduleError> {
    var lines := Lines(text);
    if lines == [] then Err(MissingHeader)
    else if lines[0] != HEADER then Err(BadHeader)
    else ReadFaults(lines[1..], 2)
  }

  lemma FaultReadFirst(lines: seq<string>, line: nat, f: Fault, rest: seq<Fault>)
    requires lines != [] && ReadFault(lines[0]) == Ok(f) && ReadFaults(lines[1..], line + 1) == Ok(rest)
    ensures ReadFaults(lines, line) == Ok([f] + rest)
  {
    hide ReadFault;
  }

  lemma {:induction false} FaultsReadBack(faults: seq<Fault>, line: nat)
    ensures ReadFaults(FaultLines(faults), line) == Ok(faults)
    decreases faults, 1
  {
    if faults != [] { OneFaultReadsBack(faults, line); }
  }

  lemma OneFaultReadsBack(faults: seq<Fault>, line: nat)
    requires faults != []
    ensures ReadFaults(FaultLines(faults), line) == Ok(faults)
    decreases faults, 0
  {
    hide WriteFault, ReadFault, ReadFaults;
    FaultRoundTrip(faults[0]);
    FaultsReadBack(faults[1..], line + 1);
    assert FaultLines(faults)[1..] == FaultLines(faults[1..]);
    FaultReadFirst(FaultLines(faults), line, faults[0], faults[1..]);
    assert faults == [faults[0]] + faults[1..];
  }

  /** Every schedule reads back as itself, its faults in the order they stood. */
  lemma ScheduleRoundTrip(faults: seq<Fault>)
    ensures ReadSchedule(WriteSchedule(faults)) == Ok(faults)
  {
    hide WriteFault, ReadFault, OneLine;
    var lines := [HEADER] + FaultLines(faults);
    assert OneLine(HEADER) by { HeaderIsLine(); }
    forall i | 0 <= i < |lines| ensures OneLine(lines[i]) {
      if i > 0 { FaultIsLine(faults[i - 1]); }
    }
    LinesRoundTrip(lines);
    assert lines[1..] == FaultLines(faults);
    FaultsReadBack(faults, 2);
  }

  lemma HeaderIsLine()
    ensures OneLine(HEADER)
  {}
}
