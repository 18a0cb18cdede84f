/** The written form of a repro: the run it is of, the failure to expect, and a schedule's own form under
    them. */
module ReproText {
  import opened Bytes
  import opened Clock
  import opened Faults
  import FaultText
  import opened Outcomes
  import opened Text
  import opened Wrappers

  // ---------------------------------------------------------------------------------------------
  // Outcomes

  const PASSED := "passed"
  const FAILED_AT := "failed at step "
  const BECAUSE := ": "

  function WriteOutcome(o: Outcome): string {
    match o
    case Pass => PASSED
    case Fail(reason, step) => FAILED_AT + (Decimal(step) + BECAUSE + reason)
  }

  datatype ParseOutcomeError = MalformedOutcome

  function ReadOutcome(text: string): Result<Outcome, ParseOutcomeError> {
    if text == PASSED then Ok(Pass)
    else match StripPrefix(text, FAILED_AT)
      case None => Err(MalformedOutcome)
      case Some(failure) =>
        match SplitOnce(failure, BECAUSE)
        case None => Err(MalformedOutcome)
        case Some((at, reason)) =>
          match ReadDigits(at, END_OF_TIME)
          case None => Err(MalformedOutcome)
          case Some(step) =>
            if reason == [] || !OneLine(reason) then Err(MalformedOutcome) else Ok(Fail(reason, step))
  }

  /** Every outcome reads back as itself, whatever its reason says. */
  lemma OutcomeRoundTrip(o: Outcome)
    requires o.Fail? ==> o.step <= END_OF_TIME
    ensures ReadOutcome(WriteOutcome(o)) == Ok(o)
  {
    if o.Fail? {
      DigitsOnly(Decimal(o.step), ':');
      DigitsRoundTrip(o.step, END_OF_TIME);
      assert WriteOutcome(o)[0] == 'f' && PASSED[0] == 'p';
      hide Decimal, ReadDigits;
      StripPrefixed(FAILED_AT, Decimal(o.step) + BECAUSE + o.reason);
      SplitHere(Decimal(o.step), BECAUSE, o.reason);
      hide StripPrefix, SplitOnce;
    }
  }

  lemma OutcomeIsLine(o: Outcome)
    ensures OneLine(WriteOutcome(o))
  {
    if o.Fail? {
      DigitsOnly(Decimal(o.step), '\n');
      DigitsOnly(Decimal(o.step), '\r');
      hide Decimal;
      OneLines(BECAUSE, o.reason);
      OneLines(Decimal(o.step), BECAUSE + o.reason);
      OneLines(FAILED_AT, Decimal(o.step) + (BECAUSE + o.reason));
      assert Decimal(o.step) + BECAUSE + o.reason == Decimal(o.step) + (BECAUSE + o.reason);
    }
  }

  // ---------------------------------------------------------------------------------------------
  // Repros

  datatype System = Quorum | Reconciler

  function WriteSystem(s: System): string {
    match s
    case Quorum => "quorum"
    case Reconciler => "reconciler"
  }

  function ReadSystem(text: string): Option<System> {
    if text == "quorum" then Some(Quorum) else if text == "reconciler" then Some(Reconciler) else None
  }

  const HEADER := "chronoloop repro "
  const SEED := " seed "
  const SCHEDULE_AT := 3

  /** A run and the failure it is to be held to: one that held up is no repro. */
  datatype AnyRepro = Repro(system: System, seed: u64, faults: seq<Fault>, expected: Outcome)
  type Repro = r: AnyRepro | r.expected.Fail? witness Repro(Quorum, 0, [], Fail("failed", 0))

  datatype ReproError = HeldUp

  function NewRepro(system: System, seed: u64, faults: seq<Fault>, expected: Outcome): Result<Repro, ReproError> {
    if expected.Pass? then Err(HeldUp) else Ok(Repro(system, seed, faults, expected))
  }

  function WriteRepro(r: Repro): string {
    (HEADER + (WriteSystem(r.system) + SEED + Decimal(r.seed)))
    + "\n" + (WriteOutcome(r.expected) + "\n" + FaultText.WriteSchedule(r.faults))
  }

  /** The first line of a text, and what follows it. A text that has run out has none. */
  function TakeLine(text: string): Option<(string, string)> {
    if text == [] then None
    else match SplitOnce(text, "\n")
      case None => Some((text, ""))
      case Some((line, rest)) =>
        Some((if line != [] && line[|line| - 1] == '\r' then line[..|line| - 1] else line, rest))
  }

  lemma LineTaken(line: string, rest: string)
    requires OneLine(line)
    ensures TakeLine(line + "\n" + rest) == Some((line, rest))
  {
    SplitHere(line, "\n", rest);
  }

  datatype ParseReproError =
    | MissingHeader
    | BadHeader
    | BadFailure(source: ParseOutcomeError)
    | Refused(refusal: ReproError)
    | BadSchedule
    | BadFault(line: nat, fault: FaultText.ParseFaultError)

  /** An error of the nested schedule with its line counted from the top of the file. */
  function Nested(e: FaultText.ParseScheduleError): ParseReproError {
    match e
    case MissingHeader => BadSchedule
    case BadHeader => BadSchedule
    case BadFaultLine(line, fault) => BadFault(line + (SCHEDULE_AT - 1), fault)
  }

  function ReadHeader(text: string): Option<(System, u64)> {
    match StripPrefix(text, HEADER)
    case None => None
    case Some(named) =>
      match SplitOnce(named, SEED)
      case None => None
      case Some((system, seed)) =>
        match (ReadSystem(system), ReadDigits(seed, END_OF_TIME))
        case (Some(s), Some(n)) => Some((s, n))
        case _ => None
  }

  function ReadRepro(text: string): Result<Repro, ParseReproError> {
    match TakeLine(text)
    case None => Err(MissingHeader)
    case Some((header, rest)) =>
      match ReadHeader(header)
      case None => Err(BadHeader)
      case Some((system, seed)) =>
        match TakeLine(rest)
        case None => Err(BadFailure(MalformedOutcome))
        case Some((failure, faults)) =>
          match ReadOutcome(failure)
          case Err(e) => Err(BadFailure(e))
          case Ok(expected) =>
            if expected.Pass? then Err(Refused(HeldUp))
            else match FaultText.ReadSchedule(faults)
              case Err(e) => Err(Nested(e))
              case Ok(schedule) =>
                match NewRepro(system, seed, schedule, expected)
                case Err(e) => Err(Refused(e))
                case Ok(repro) => Ok(repro)
  }

  lemma SystemReads(system: System)
    ensures ReadSystem(WriteSystem(system)) == Some(system)
    ensures Unsplit(WriteSystem(system), SEED) && OneLine(WriteSystem(system))
  {
    assert "quorum"[0] != "reconciler"[0];
  }

  lemma HeaderReads(system: System, seed: u64)
    ensures ReadHeader(HEADER + (WriteSystem(system) + SEED + Decimal(seed))) == Some((system, seed))
  {
    SystemReads(system);
    DigitsRoundTrip(seed, END_OF_TIME);
    hide WriteSystem, ReadSystem, Decimal, ReadDigits, OneLine;
    StripPrefixed(HEADER, WriteSystem(system) + SEED + Decimal(seed));
    SplitHere(WriteSystem(system), SEED, Decimal(seed));
    hide StripPrefix, SplitOnce, Unsplit;
  }

  lemma HeaderIsLine(system: System, seed: u64)
    ensures OneLine(HEADER + (WriteSystem(system) + SEED + Decimal(seed)))
  {
    SystemReads(system);
    DigitsOnly(Decimal(seed), '\n');
    DigitsOnly(Decimal(seed), '\r');
    hide WriteSystem, Decimal;
    OneLines(SEED, Decimal(seed));
    OneLines(WriteSystem(system), SEED + Decimal(seed));
    OneLines(HEADER, WriteSystem(system) + SEED + Decimal(seed));
    assert WriteSystem(system) + SEED + Decimal(seed) == WriteSystem(system) + (SEED + Decimal(seed));
  }

  /** Every repro reads back as itself: the run, the failure and the faults. */
  lemma ReproRoundTrip(r: Repro)
    requires r.expected.step <= END_OF_TIME
    ensures ReadRepro(WriteRepro(r)) == Ok(r)
  {
    hide ReadHeader, ReadOutcome, WriteOutcome, OneLine, TakeLine;
    var header := HEADER + (WriteSystem(r.system) + SEED + Decimal(r.seed));
    var rest := WriteOutcome(r.expected) + "\n" + FaultText.WriteSchedule(r.faults);
    HeaderReads(r.system, r.seed);
    HeaderIsLine(r.system, r.seed);
    LineTaken(header, rest);
    OutcomeRoundTrip(r.expected);
    OutcomeIsLine(r.expected);
    LineTaken(WriteOutcome(r.expected), FaultText.WriteSchedule(r.faults));
    FaultText.ScheduleRoundTrip(r.faults);
  }
}
