/** The written form of a trace: a header naming its seed, a line for its fork if it has one, and a
    numbered line for each step. A file that has lost a step from its middle does not read. */
module TraceText {
  import opened Bytes
  import opened Clock
  import opened ClockText
  import opened HashText
  import opened Text
  import opened Tree
  import opened Wrappers

  type Message = m: string | OneLine(m) witness ""

  datatype Step = Step(at: u64, state: Digest, message: Message)
  datatype ForkLine = ForkLine(at: u64, seed: u64)
  datatype Trace = Trace(seed: u64, fork: Option<ForkLine>, steps: seq<Step>)

  const HEADER := "chronoloop trace seed "
  const FORKED_AT := "forked at "
  const TO_SEED := " to seed "
  const STEP := "step "

  // ---------------------------------------------------------------------------------------------
  // One step

  function WriteStep(s: Step): string {
    WriteTime(s.at) + " " + (HexText(s.state) + " " + s.message)
  }

  datatype ParseStepError = BadStepForm | BadTime(time: ParseTimeError) | BadHash(hash: ParseStateHashError)

  function ReadStep(text: string): Result<Step, ParseStepError> {
    match SplitOnce(text, " ")
    case None => Err(BadStepForm)
    case Some((at, rest)) =>
      match ReadTime(at)
      case Err(e) => Err(BadTime(e))
      case Ok(instant) =>
        match SplitOnce(rest, " ")
        case None => Err(BadStepForm)
        case Some((state, message)) =>
          match HashOf(state)
          case Err(e) => Err(BadHash(e))
          case Ok(d) => if OneLine(message) then Ok(Step(instant, d, message)) else Err(BadStepForm)
  }

  lemma StepRoundTrip(s: Step)
    ensures ReadStep(WriteStep(s)) == Ok(s)
  {
    TimeIsWord(s.at);
    TimeRoundTrip(s.at);
    SplitHere(WriteTime(s.at), " ", HexText(s.state) + " " + s.message);
    HexIsWord(s.state);
    SplitHere(HexText(s.state), " ", s.message);
    HashOfRoundTrip(s.state);
  }

  lemma StepIsLine(s: Step)
    ensures OneLine(WriteStep(s))
  {
    TimeIsWord(s.at);
    HexIsWord(s.state);
  }

  // ---------------------------------------------------------------------------------------------
  // The fork's line

  function WriteFork(f: ForkLine): string {
    FORKED_AT + (WriteTime(f.at) + TO_SEED + Decimal(f.seed))
  }

  function ReadFork(text: string): Option<ForkLine> {
    match StripPrefix(text, FORKED_AT)
    case None => None
    case Some(named) =>
      match SplitOnce(named, TO_SEED)
      case None => None
      case Some((at, seed)) =>
        match (ReadTime(at), ReadDigits(seed, END_OF_TIME))
        case (Ok(instant), Some(n)) => Some(ForkLine(instant, n))
        case _ => None
  }

  lemma ForkRoundTrip(f: ForkLine)
    ensures ReadFork(WriteFork(f)) == Some(f)
    ensures OneLine(WriteFork(f)) && StartsWith(WriteFork(f), FORKED_AT)
  {
    hide WriteTime, ReadTime, Decimal, ReadDigits, OneLine, SplitOnce;
    var named := WriteTime(f.at) + TO_SEED + Decimal(f.seed);
    StripPrefixed(FORKED_AT, named);
    UnsplitByFork(f.at);
    SplitHere(WriteTime(f.at), TO_SEED, Decimal(f.seed));
    TimeRoundTrip(f.at);
    DigitsRoundTrip(f.seed, END_OF_TIME);
    ForkIsLine(f);
  }

  lemma UnsplitByFork(at: u64)
    ensures Unsplit(WriteTime(at), TO_SEED)
  {
    hide WriteTime;
    TimeIsWord(at);
  }

  lemma ForkIsLine(f: ForkLine)
    ensures OneLine(WriteFork(f))
  {
    hide WriteTime, Decimal;
    TimeIsWord(f.at);
    DigitsOnly(Decimal(f.seed), '\n');
    DigitsOnly(Decimal(f.seed), '\r');
  }

  // ---------------------------------------------------------------------------------------------
  // The whole trace

  function Numbered(number: nat, s: Step): string {
    STEP + (Decimal(number) + " " + WriteStep(s))
  }

  function StepLines(steps: seq<Step>, first: nat): (lines: seq<string>)
    ensures |lines| == |steps|
  {
    if steps == [] then [] else [Numbered(first, steps[0])] + StepLines(steps[1..], first + 1)
  }

  lemma {:induction false} StepLineAt(steps: seq<Step>, first: nat, i: nat)
    requires i < |steps|
    ensures StepLines(steps, first)[i] == Numbered(first + i, steps[i])
  {
    hide Numbered;
    if i > 0 { StepLineAt(steps[1..], first + 1, i - 1); }
  }

  function TraceLines(t: Trace): seq<string> {
    [HEADER + Decimal(t.seed)] + (if t.fork.Some? then [WriteFork(t.fork.value)] else []) + StepLines(t.steps, 0)
  }

  function WriteTrace(t: Trace): string {
    Unlines(TraceLines(t))
  }

  /** Writes a trace out a line at a time: its header, its fork if it has one, and each step numbered. */
  method PrintTrace(t: Trace) returns (text: string)
    ensures text == WriteTrace(t)
  {
    hide Numbered, WriteFork, Decimal, Unlines, StepLines;
    ghost var lines := TraceLines(t);
    ghost var head := |lines| - |t.steps|;
    NoLines(lines);
    UnlinesMore(lines, 0);
    text := HEADER + Decimal(t.seed) + "\n";
    if t.fork.Some? {
      UnlinesMore(lines, 1);
      text := text + (WriteFork(t.fork.value) + "\n");
    }
    var n := 0;
    while n < |t.steps|
      invariant 0 <= n <= |t.steps| && text == Unlines(lines[..head + n])
    {
      UnlinesMore(lines, head + n);
      StepLineAt(t.steps, 0, n);
      text := text + (Numbered(n, t.steps[n]) + "\n");
      n := n + 1;
    }
    assert lines[..|lines|] == lines;
  }

  datatype ParseTraceError =
    | MissingHeader
    | BadHeader
    | BadFork
    | Unnumbered(line: nat)
    | OutOfSequence(line: nat, expected: nat, found: nat)
    | BadStep(line: nat, error: ParseStepError)

  /** The step on one line, which must say it is the one the trace has reached. */
  function ReadNumbered(text: string, line: nat, expected: nat): Result<Step, ParseTraceError> {
    match StripPrefix(text, STEP)
    case None => Err(Unnumbered(line))
    case Some(numbered) =>
      match SplitOnce(numbered, " ")
      case None => Err(Unnumbered(line))
      case Some((number, record)) =>
        match ReadDigits(number, END_OF_TIME)
        case None => Err(Unnumbered(line))
        case Some(n) =>
          if n != expected then Err(OutOfSequence(line, expected, n))
          else match ReadStep(record)
            case Err(e) => Err(BadStep(line, e))
            case Ok(s) => Ok(s)
  }

  function ReadSteps(lines: seq<string>, line: nat, expected: nat): Result<seq<Step>, ParseTraceError> {
    if lines == [] then Ok([])
    else match ReadNumbered(lines[0], line, expected)
      case Err(e) => Err(e)
      case Ok(s) =>
        match ReadSteps(lines[1..], line + 1, expected + 1)
        case Err(e) => Err(e)
        case Ok(rest) => Ok([s] + rest)
  }

  function ReadTraceLines(lines: seq<string>): Result<Trace, ParseTraceError> {
    if lines == [] then Err(MissingHeader)
    else
      var named := StripPrefix(lines[0], HEADER);
      var seed := if named.Some? then ReadDigits(named.value, END_OF_TIME) else None;
      if seed.None? then Err(BadHeader)
      else
        var records := lines[1..];
        if records != [] && StartsWith(records[0], FORKED_AT) then
          match ReadFork(records[0])
          case None => Err(BadFork)
          case Some(f) =>
            match ReadSteps(records[1..], 3, 0)
            case Err(e) => Err(e)
            case Ok(steps) => Ok(Trace(seed.value, Some(f), steps))
        else
          match ReadSteps(records, 2, 0)
          case Err(e) => Err(e)
          case Ok(steps) => Ok(Trace(seed.value, None, steps))
  }

  function ReadTrace(text: string): Result<Trace, ParseTraceError> {
    ReadTraceLines(Lines(text))
  }

  /** What the rest of the lines hold, read onto the steps there are. */
  function Onto(steps: seq<Step>, rest: Result<seq<Step>, ParseTraceError>): Result<seq<Step>, ParseTraceError> {
    match rest
    case Err(e) => Err(e)
    case Ok(more) => Ok(steps + more)
  }

  lemma OneStepOnto(steps: seq<Step>, records: seq<string>, n: nat, line: nat, expected: nat)
    requires n < |records|
    ensures Onto(steps, ReadSteps(records[n..], line, expected))
            == match ReadNumbered(records[n], line, expected)
               case Err(e) => Err(e)
               case Ok(s) => Onto(steps + [s], ReadSteps(records[n + 1..], line + 1, expected + 1))
  {
    hide ReadNumbered;
    assert records[n..][1..] == records[n + 1..];
    match ReadSteps(records[n + 1..], line + 1, expected + 1)
    case Ok(more) =>
      if ReadNumbered(records[n], line, expected).Ok? {
        var s := ReadNumbered(records[n], line, expected).value;
        assert steps + ([s] + more) == (steps + [s]) + more;
      }
    case Err(_) =>
  }

  /** Reads the step on each line in turn, stopping at the first that is not the step it should be. */
  method ParseSteps(records: seq<string>, first: nat) returns (r: Result<seq<Step>, ParseTraceError>)
    ensures r == ReadSteps(records, first, 0)
  {
    hide ReadNumbered, ReadSteps;
    var steps := [];
    var n := 0;
    assert records[0..] == records;
    NothingOnto(ReadSteps(records, first, 0));
    while n < |records|
      invariant 0 <= n <= |records|
      invariant Onto(steps, ReadSteps(records[n..], n + first, n)) == ReadSteps(records, first, 0)
    {
      OneStepOnto(steps, records, n, n + first, n);
      var step := ReadNumbered(records[n], n + first, n);
      if step.Err? {
        return Err(step.error);
      }
      steps := steps + [step.value];
      n := n + 1;
    }
    assert records[n..] == [];
    NoneLeft(steps, n + first, n);
    return Ok(steps);
  }

  lemma NothingOnto(rest: Result<seq<Step>, ParseTraceError>)
    ensures Onto([], rest) == rest
  {
    if rest.Ok? { assert [] + rest.value == rest.value; }
  }

  lemma NoneLeft(steps: seq<Step>, line: nat, expected: nat)
    ensures Onto(steps, ReadSteps([], line, expected)) == Ok(steps)
  {
    assert steps + [] == steps;
  }

  /** Reads a trace back from its written form. */
  method ParseTrace(text: string) returns (r: Result<Trace, ParseTraceError>)
    ensures r == ReadTrace(text)
  {
    hide ReadSteps, Lines, ReadFork, StartsWith, StripPrefix, IsDigits, Value;
    var lines := Lines(text);
    if lines == [] {
      return Err(MissingHeader);
    }
    var named := StripPrefix(lines[0], HEADER);
    var seed := if named.Some? then ReadDigits(named.value, END_OF_TIME) else None;
    if seed.None? {
      return Err(BadHeader);
    }
    var records := lines[1..];
    var fork: Option<ForkLine> := None;
    if records != [] && StartsWith(records[0], FORKED_AT) {
      fork := ReadFork(records[0]);
      if fork.None? {
        return Err(BadFork);
      }
      records := records[1..];
    }
    var steps := ParseSteps(records, if fork.Some? then 3 else 2);
    if steps.Err? {
      return Err(steps.error);
    }
    return Ok(Trace(seed.value, fork, steps.value));
  }

  /** A numbered line says which step it is; one that is not the step expected says so. */
  lemma NumberedReads(number: nat, s: Step, line: nat, expected: nat)
    requires number <= END_OF_TIME
    ensures ReadNumbered(Numbered(number, s), line, expected)
            == if number == expected then Ok(s) else Err(OutOfSequence(line, expected, number))
    ensures OneLine(Numbered(number, s)) && !StartsWith(Numbered(number, s), FORKED_AT)
  {
    hide Decimal, ReadDigits, WriteStep, ReadStep, OneLine, SplitOnce;
    var numbered := Decimal(number) + " " + WriteStep(s);
    StripPrefixed(STEP, numbered);
    DigitsOnly(Decimal(number), ' ');
    SplitHere(Decimal(number), " ", WriteStep(s));
    DigitsRoundTrip(number, END_OF_TIME);
    StepRoundTrip(s);
    NumberedIsLine(number, s);
    assert Numbered(number, s)[0] == 's' && FORKED_AT[0] == 'f';
  }

  lemma NumberedIsLine(number: nat, s: Step)
    ensures OneLine(Numbered(number, s))
  {
    hide Decimal, WriteStep;
    DigitsOnly(Decimal(number), '\n');
    DigitsOnly(Decimal(number), '\r');
    StepIsLine(s);
  }

  lemma StepReadFirst(lines: seq<string>, line: nat, expected: nat, s: Step, rest: seq<Step>)
    requires lines != [] && ReadNumbered(lines[0], line, expected) == Ok(s)
    requires ReadSteps(lines[1..], line + 1, expected + 1) == Ok(rest)
    ensures ReadSteps(lines, line, expected) == Ok([s] + rest)
  {
    hide ReadNumbered;
  }

  lemma StepLinesBegin(steps: seq<Step>, first: nat)
    requires steps != []
    ensures StepLines(steps, first)[0] == Numbered(first, steps[0])
    ensures StepLines(steps, first)[1..] == StepLines(steps[1..], first + 1)
  {
    hide Numbered;
  }

  lemma {:induction false} StepsReadBack(steps: seq<Step>, line: nat, first: nat)
    requires first + |steps| <= END_OF_TIME
    ensures ReadSteps(StepLines(steps, first), line, first) == Ok(steps)
    decreases steps, 1
  {
    if steps == [] {
      assert ReadSteps(StepLines([], first), line, first) == Ok([]);
    } else {
      OneStepReadsBack(steps, line, first);
    }
  }

  lemma OneStepReadsBack(steps: seq<Step>, line: nat, first: nat)
    requires steps != [] && first + |steps| <= END_OF_TIME
    ensures ReadSteps(StepLines(steps, first), line, first) == Ok(steps)
    decreases steps, 0
  {
    hide Numbered, ReadNumbered, ReadSteps, StepLines, OneLine, StartsWith;
    NumberedReads(first, steps[0], line, first);
    StepLinesBegin(steps, first);
    StepsReadBack(steps[1..], line + 1, first + 1);
    StepReadFirst(StepLines(steps, first), line, first, steps[0], steps[1..]);
    assert steps == [steps[0]] + steps[1..];
  }

  lemma TraceLinesAreLines(t: Trace)
    requires |t.steps| <= END_OF_TIME
    ensures forall i :: 0 <= i < |TraceLines(t)| ==> OneLine(TraceLines(t)[i])
  {
    HeaderIsLine(t.seed);
    hide OneLine, Numbered, ReadNumbered, WriteFork, ReadFork, Decimal, StartsWith;
    if t.fork.Some? { ForkRoundTrip(t.fork.value); }
    forall i | 0 <= i < |t.steps| ensures OneLine(StepLines(t.steps, 0)[i]) {
      StepLineAt(t.steps, 0, i);
      NumberedReads(i, t.steps[i], 0, i);
    }
  }

  lemma HeaderIsLine(seed: u64)
    ensures OneLine(HEADER + Decimal(seed))
  {
    DigitsOnly(Decimal(seed), '\n');
    DigitsOnly(Decimal(seed), '\r');
  }

  lemma HeaderReads(seed: u64)
    ensures StripPrefix(HEADER + Decimal(seed), HEADER) == Some(Decimal(seed))
    ensures ReadDigits(Decimal(seed), END_OF_TIME) == Some(seed)
  {
    StripPrefixed(HEADER, Decimal(seed));
    DigitsRoundTrip(seed, END_OF_TIME);
  }

  /** A written trace reads back as itself, forked or not. */
  lemma TraceRoundTrip(t: Trace)
    requires |t.steps| <= END_OF_TIME
    ensures ReadTrace(WriteTrace(t)) == Ok(t)
  {
    TraceLinesAreLines(t);
    LinesRoundTrip(TraceLines(t));
    HeaderReads(t.seed);
    StepsReadBack(t.steps, 2, 0);
    StepsReadBack(t.steps, 3, 0);
    var lines := TraceLines(t);
    if t.fork.Some? {
      ForkRoundTrip(t.fork.value);
      assert lines[1..][1..] == StepLines(t.steps, 0);
    } else {
      assert lines[1..] == StepLines(t.steps, 0);
      if t.steps != [] { NumberedReads(0, t.steps[0], 2, 0); }
    }
  }

  /** The lines of a written trace with step `i`'s taken out. */
  function Without(t: Trace, i: nat): seq<string>
    requires i < |t.steps|
  {
    var at := |TraceLines(t)| - |t.steps| + i;
    TraceLines(t)[..at] + TraceLines(t)[at + 1..]
  }

  lemma {:induction false} GapFound(steps: seq<Step>, i: nat, line: nat, first: nat)
    requires i + 1 < |steps| && first + |steps| <= END_OF_TIME
    ensures ReadSteps(StepLines(steps, first)[..i] + StepLines(steps, first)[i + 1..], line, first)
            == Err(OutOfSequence(line + i, first + i, first + i + 1))
    decreases i
  {
    hide Numbered, ReadNumbered;
    var all := StepLines(steps, first);
    var lines := all[..i] + all[i + 1..];
    if i == 0 {
      StepLineAt(steps, first, 1);
      assert lines[0] == Numbered(first + 1, steps[1]);
      NumberedReads(first + 1, steps[1], line, first);
    } else {
      assert lines[0] == Numbered(first, steps[0]);
      NumberedReads(first, steps[0], line, first);
      var rest := StepLines(steps[1..], first + 1);
      assert all[1..] == rest;
      assert lines[1..] == rest[..i - 1] + rest[i..];
      GapFound(steps[1..], i - 1, line + 1, first + 1);
    }
  }

  /** A written trace that has lost a step from anywhere but its end is turned away, and the reason names
      the line, the step that should stand there and the one that does. */
  lemma LostStepRefused(t: Trace, i: nat)
    requires i + 1 < |t.steps| <= END_OF_TIME
    ensures ReadTrace(Unlines(Without(t, i)))
            == Err(OutOfSequence((if t.fork.Some? then 3 else 2) + i, i, i + 1))
  {
    hide Numbered, ReadNumbered, ReadSteps, WriteFork, ReadFork, Lines, Unlines, OneLine, Decimal, ReadDigits;
    var lines, left := TraceLines(t), Without(t, i);
    WithoutAreLines(t, i);
    LinesRoundTrip(left);
    HeaderReads(t.seed);
    var steps := StepLines(t.steps, 0);
    if t.fork.Some? {
      ForkRoundTrip(t.fork.value);
      assert left[0] == lines[0] && left[1] == lines[1];
      WithoutForked(t, i);
      GapFound(t.steps, i, 3, 0);
    } else {
      assert left[0] == lines[0];
      assert left[1..] == steps[..i] + steps[i + 1..];
      GapFound(t.steps, i, 2, 0);
      var first := if i == 0 then 1 else 0;
      StepLineAt(t.steps, 0, first);
      assert left[1] == Numbered(first, t.steps[first]);
      NumberedReads(first, t.steps[first], 2, 0);
    }
  }

  lemma WithoutForked(t: Trace, i: nat)
    requires i < |t.steps| && t.fork.Some?
    ensures Without(t, i)[1..][1..] == StepLines(t.steps, 0)[..i] + StepLines(t.steps, 0)[i + 1..]
  {
    var steps := StepLines(t.steps, 0);
    var head := [HEADER + Decimal(t.seed), WriteFork(t.fork.value)];
    hide StepLines, WriteFork, Decimal;
    TakenOut(head, steps, i);
    assert TraceLines(t) == head + steps by { assert head == [head[0]] + [head[1]]; }
  }

  lemma TakenOut(head: seq<string>, tail: seq<string>, i: nat)
    requires i < |tail| && |head| == 2
    ensures var left := (head + tail)[..2 + i] + (head + tail)[2 + i + 1..];
            left[1..][1..] == tail[..i] + tail[i + 1..]
  {
    assert (head + tail)[..2 + i] == head + tail[..i];
    assert (head + tail)[2 + i + 1..] == tail[i + 1..];
  }

  lemma WithoutAreLines(t: Trace, i: nat)
    requires i < |t.steps| <= END_OF_TIME
    ensures forall k :: 0 <= k < |Without(t, i)| ==> OneLine(Without(t, i)[k])
  {
    hide OneLine;
    TraceLinesAreLines(t);
    forall k | 0 <= k < |Without(t, i)| ensures OneLine(Without(t, i)[k]) {
      assert Without(t, i)[k] in TraceLines(t);
    }
  }

  lemma {:induction false} StepLinesCut(steps: seq<Step>, first: nat)
    requires steps != []
    ensures StepLines(steps, first)[..|steps| - 1] == StepLines(steps[..|steps| - 1], first)
  {
    hide Numbered;
    var n := |steps| - 1;
    forall i | 0 <= i < n ensures StepLines(steps, first)[i] == StepLines(steps[..n], first)[i] {
      StepLineAt(steps, first, i);
      StepLineAt(steps[..n], first, i);
    }
  }

  /** One that has lost its end reads as the shorter trace it now is. */
  lemma LostEndReads(t: Trace)
    requires 0 < |t.steps| <= END_OF_TIME
    ensures ReadTrace(Unlines(Without(t, |t.steps| - 1))) == Ok(t.(steps := t.steps[..|t.steps| - 1]))
  {
    var n := |t.steps| - 1;
    var shorter := t.(steps := t.steps[..n]);
    StepLinesCut(t.steps, 0);
    assert Without(t, n) == TraceLines(shorter);
    TraceRoundTrip(shorter);
  }
}
