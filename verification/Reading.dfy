/** What the readers of the written forms accept, exactly, and what a refusal names. */
module Reading {
  import opened Bytes
  import opened Clock
  import opened ClockText
  import opened FaultText
  import opened Faults
  import opened HashText
  import opened Outcomes
  import opened Text
  import opened Tree
  import opened Wrappers
  import R = ReproText
  import T = TraceText

  // ---------------------------------------------------------------------------------------------
  // Splitting and lines

  /** A text is split at the first place the separator stands, and not at all if it stands nowhere. */
  lemma {:induction false} SplitFirst(text: string, sep: string)
    requires sep != []
    ensures match SplitOnce(text, sep)
            case Some((a, b)) => text == a + sep + b && forall i :: 0 <= i < |a| ==> !StartsWith(text[i..], sep)
            case None => forall i :: 0 <= i <= |text| ==> !StartsWith(text[i..], sep)
  {
    hide StartsWith;
    assert text[0..] == text;
    if StartsWith(text, sep) {
      Started(text, sep);
      assert text == "" + sep + text[|sep|..];
    } else if text == [] {
    } else {
      SplitFirst(text[1..], sep);
      forall i | 0 < i <= |text| ensures text[i..] == text[1..][i - 1..] {}
      if SplitOnce(text[1..], sep).Some? {
        var (a, b) := SplitOnce(text[1..], sep).value;
        assert text == [text[0]] + (a + sep + b) == [text[0]] + a + sep + b;
      }
    }
  }

  lemma Started(text: string, start: string)
    requires StartsWith(text, start)
    ensures |start| <= |text| && text == start + text[|start|..]
  {}

  /** A line is taken whole: the line feed ending it goes, a carriage return before that goes too, and one that nothing
      ends is a line all the same. */
  lemma LineTaken(line: string, rest: string)
    requires OneLine(line)
    ensures R.TakeLine(line + "\n" + rest) == Some((line, rest))
    ensures R.TakeLine(line + "\r\n" + rest) == Some((line, rest))
    ensures line != [] ==> R.TakeLine(line) == Some((line, ""))
    ensures R.TakeLine("") == None
  {
    SplitHere(line, "\n", rest);
    SplitHere(line + "\r", "\n", rest);
    assert line + "\r\n" + rest == line + "\r" + "\n" + rest;
    SplitFirst(line, "\n");
  }

  /** What stands before the first line feed holds none. */
  lemma FirstFed(text: string, a: string)
    requires |a| <= |text| && text[..|a|] == a && forall i :: 0 <= i < |a| ==> !StartsWith(text[i..], "\n")
    ensures '\n' !in a
  {
    forall i | 0 <= i < |a| ensures a[i] != '\n' {
      assert text[..|a|][i] == text[i] && text[i..][..1] == [text[i]];
      assert !StartsWith(text[i..], "\n");
    }
  }

  /** The first line taken off a text is the first of its lines, and the rest are those of what is left. */
  lemma TakenIsFirst(text: string)
    ensures match R.TakeLine(text)
            case None => Lines(text) == []
            case Some((line, rest)) => Lines(text) == [line] + Lines(rest)
  {
    hide LinesFrom, SplitOnce, StartsWith;
    SplitFirst(text, "\n");
    match SplitOnce(text, "\n")
    case None =>
      assert text[..|text|] == text;
      FirstFed(text, text);
      NoLineFeed([], text);
      NoLineFeed([], []);
      assert [] + text == text;
    case Some((a, b)) =>
      assert text == a + ("\n" + b);
      FirstFed(text, a);
      LineFed([], a, b);
      assert [] + a == a;
      EmptySplits();
  }

  lemma EmptySplits()
    ensures SplitOnce("", "\n") == None
  {}

  lemma {:induction false} NoLineFeed(begun: string, text: string)
    requires '\n' !in text
    ensures LinesFrom(begun, text) == if begun + text == [] then [] else [begun + text]
    decreases |text|
  {
    if text == [] {
      assert begun + text == begun;
    } else {
      NoLineFeed(begun + [text[0]], text[1..]);
      assert begun + [text[0]] + text[1..] == begun + text;
    }
  }

  function Trimmed(line: string): string {
    if line != [] && line[|line| - 1] == '\r' then line[..|line| - 1] else line
  }

  lemma {:induction false} LineFed(begun: string, line: string, rest: string)
    requires '\n' !in line
    ensures LinesFrom(begun, line + "\n" + rest) == [Trimmed(begun + line)] + LinesFrom([], rest)
    decreases |line|
  {
    var text := line + "\n" + rest;
    if line == [] {
      assert text == "\n" + rest && begun + line == begun;
      assert text[1..] == rest;
    } else {
      assert text[1..] == line[1..] + "\n" + rest;
      LineFed(begun + [line[0]], line[1..], rest);
      assert begun + [line[0]] + line[1..] == begun + line;
    }
  }

  /** Lines ended the other way, a carriage return before each line feed. */
  function Returned(lines: seq<string>): string {
    if lines == [] then [] else lines[0] + "\r\n" + Returned(lines[1..])
  }

  /** A file reads alike however its lines end. */
  lemma {:induction false} ReturnsAlike(lines: seq<string>)
    requires forall i :: 0 <= i < |lines| ==> OneLine(lines[i])
    ensures Lines(Returned(lines)) == lines
  {
    if lines != [] {
      var l, rest := lines[0], lines[1..];
      ReturnsAlike(rest);
      hide LinesFrom;
      assert lines == [l] + rest && [] + (l + "\r") == l + "\r";
      LineFed([], l + "\r", Returned(rest));
      assert l + "\r" + "\n" + Returned(rest) == Returned(lines);
    }
  }

  /** And it reads alike whether or not anything ends the last of them. */
  lemma {:induction false} LastAlike(lines: seq<string>, last: string)
    requires (forall i :: 0 <= i < |lines| ==> OneLine(lines[i])) && OneLine(last) && last != []
    ensures Lines(Unlines(lines) + last) == lines + [last]
  {
    if lines == [] {
      NoLineFeed([], last);
      assert [] + last == last;
    } else {
      var l, rest := lines[0], lines[1..];
      LastAlike(rest, last);
      hide LinesFrom;
      assert lines == [l] + rest && [] + l == l;
      LineFed([], l, Unlines(rest) + last);
      assert l + "\n" + (Unlines(rest) + last) == Unlines(lines) + last;
      assert [l] + (rest + [last]) == lines + [last];
    }
  }

  // ---------------------------------------------------------------------------------------------
  // Instants and the parts of a fault

  ghost predicate NumberIn(digits: string, n: nat) {
    IsDigits(digits) && Value(digits) == n
  }

  /** Seconds, a point and nine digits of nanoseconds. */
  ghost predicate TimeIn(text: string, at: u64, seconds: string, fraction: string) {
    && IsDigits(seconds) && IsDigits(fraction) && |fraction| == 9
    && text == seconds + "." + fraction + "s" && at == Value(seconds) * 1_000_000_000 + Value(fraction)
  }

  /** An instant is read from exactly the texts that spell it: seconds, a point, nine digits, and an s. */
  lemma TimeReadIff(text: string, at: u64)
    ensures ReadTime(text) == Ok(at) <==> exists seconds, fraction :: TimeIn(text, at, seconds, fraction)
  {
    if ReadTime(text) == Ok(at) {
      var body := text[..|text| - 1];
      SplitFirst(body, ".");
      var halves := SplitOnce(body, ".").value;
      DigitsUtf8(halves.1);
      assert text == body + "s";
      assert TimeIn(text, at, halves.0, halves.1);
    }
    if seconds, fraction :| TimeIn(text, at, seconds, fraction) {
      assert text[..|text| - 1] == seconds + "." + fraction;
      DigitsOnly(seconds, '.');
      SplitHere(seconds, ".", fraction);
      DigitsUtf8(fraction);
      assert 0 <= Value(seconds) <= at;
    }
  }

  /** A node is read from exactly the texts that number it. */
  lemma NodeReadIff(text: string, n: u64)
    ensures ReadNode(text) == Ok(n) <==> exists digits :: NumberIn(digits, n) && text == "node " + digits
  {
    if ReadNode(text) == Ok(n) {
      assert NumberIn(text[5..], n) && text == "node " + text[5..];
    }
    if digits :| NumberIn(digits, n) && text == "node " + digits {
      StripPrefixed("node ", digits);
    }
  }

  ghost predicate OddsIn(text: string, o: Odds, n: string, d: string) {
    NumberIn(n, o.numerator) && NumberIn(d, o.denominator) && text == n + " in " + d
  }

  lemma OddsReadIff(text: string, o: Odds)
    ensures ReadOdds(text) == Ok(o) <==> exists n, d :: OddsIn(text, o, n, d)
  {
    if ReadOdds(text) == Ok(o) {
      SplitFirst(text, IN);
      var halves := SplitOnce(text, IN).value;
      assert OddsIn(text, o, halves.0, halves.1);
    }
    if n, d :| OddsIn(text, o, n, d) {
      DigitsOnly(n, ' ');
      SplitHere(n, IN, d);
    }
  }

  ghost predicate WindowIn(text: string, w: Window, start: string, end: string) {
    && text == "from " + start + " until " + end && ReadTime(start) == Ok(w.start)
    && (if end == "forever" then w.end == END_OF_TIME else ReadTime(end) == Ok(w.end))
  }

  lemma WindowReadIff(text: string, w: Window)
    ensures ReadWindow(text) == Ok(w) <==> exists start, end :: WindowIn(text, w, start, end)
  {
    hide ReadTime;
    if ReadWindow(text) == Ok(w) {
      var span := text[5..];
      SplitFirst(span, UNTIL);
      var halves := SplitOnce(span, UNTIL).value;
      assert text == OPENING + span && span == halves.0 + UNTIL + halves.1;
      assert OPENING + (halves.0 + UNTIL + halves.1) == OPENING + halves.0 + UNTIL + halves.1;
      assert WindowIn(text, w, halves.0, halves.1);
    }
    if start, end :| WindowIn(text, w, start, end) {
      assert text == OPENING + (start + UNTIL + end);
      StripPrefixed(OPENING, start + UNTIL + end);
      WordOfTime(start, w.start);
      SplitHere(start, UNTIL, end);
    }
  }

  lemma WordOfTime(text: string, at: u64)
    requires ReadTime(text) == Ok(at)
    ensures ' ' !in text
  {
    TimeReadIff(text, at);
    var seconds, fraction :| TimeIn(text, at, seconds, fraction);
    DigitsOnly(seconds, ' ');
    DigitsOnly(fraction, ' ');
  }

  /** What a fault is, on which direction, and while which window lasts. */
  ghost predicate FaultIn(text: string, f: Fault, kind: string, sender: string, receiver: string, span: string) {
    && NumberIn(sender, f.sender) && NumberIn(receiver, f.receiver) && ReadWindow("from " + span) == Ok(f.during)
    && (if f.Partition? then kind == "partition" else exists n, d :: OddsIn(kind, f.odds, n, d))
    && text == (if f.Partition? then "" else "loss ") + kind + " on node " + sender + " -> node " + receiver + " from " + span
  }

  lemma LinkUnsplit(sender: string, receiver: string)
    requires IsDigits(sender) && IsDigits(receiver)
    ensures Unsplit("node " + sender + " -> node " + receiver, " from ") && Unsplit("node " + sender, " -> ")
  {
    DigitsOnly(sender, ' ');
    DigitsOnly(receiver, ' ');
    var link := "node " + sender + " -> node " + receiver;
    forall i | 0 <= i < |link| && link[i] == ' ' ensures i + 1 < |link| && link[i + 1] != 'f' {
      assert i == 4 || i == 5 + |sender| || i == 5 + |sender| + 3 || i == 5 + |sender| + 4 + 4;
    }
  }

  lemma LossUnsplit(kind: string, o: Odds, n: string, d: string)
    requires OddsIn(kind, o, n, d)
    ensures Unsplit("loss " + kind, " on ")
  {
    DigitsOnly(n, ' ');
    DigitsOnly(d, ' ');
    var loss := "loss " + kind;
    assert loss == "loss " + n + " in " + d;
    forall i | 0 <= i < |loss| && loss[i] == ' ' ensures i + 1 < |loss| && loss[i + 1] != 'o' {
      assert i == 4 || i == 5 + |n| || i == 5 + |n| + 3;
    }
  }

  lemma FaultReads(text: string, f: Fault, kind: string, sender: string, receiver: string, span: string)
    requires FaultIn(text, f, kind, sender, receiver, span)
    ensures ReadFault(text) == Ok(f)
  {
    hide ReadWindow, ReadNode, ReadOdds, SplitOnce, Value, IsDigits, Unsplit;
    FaultSplits(text, f, kind, sender, receiver, span);
    NodeReadIff("node " + sender, f.sender);
    NodeReadIff("node " + receiver, f.receiver);
    if f.Loss? {
      OddsReadIff(kind, f.odds);
      StripPrefixed("loss ", kind);
      assert ("loss " + kind)[0] == 'l' && PARTITION[0] == 'p';
    }
  }

  lemma FaultSplits(text: string, f: Fault, kind: string, sender: string, receiver: string, span: string)
    requires FaultIn(text, f, kind, sender, receiver, span)
    ensures var link := "node " + sender + " -> node " + receiver;
            && SplitOnce(text, ON) == Some((if f.Partition? then kind else "loss " + kind, link + " from " + span))
            && SplitOnce(link + " from " + span, FROM) == Some((link, span))
            && SplitOnce(link, TO) == Some(("node " + sender, "node " + receiver))
  {
    hide ReadWindow, SplitOnce, Value, IsDigits, Unsplit;
    var named := (if f.Partition? then "" else "loss ") + kind;
    var link := "node " + sender + " -> node " + receiver;
    LinkUnsplit(sender, receiver);
    if f.Loss? {
      var n, d :| OddsIn(kind, f.odds, n, d);
      LossUnsplit(kind, f.odds, n, d);
    } else {
      PartitionUnsplit();
      assert named == kind;
    }
    assert text == named + " on " + (link + " from " + span);
    SplitHere(named, ON, link + " from " + span);
    SplitHere(link, FROM, span);
    assert link == "node " + sender + " -> " + ("node " + receiver);
    SplitHere("node " + sender, TO, "node " + receiver);
  }

  lemma PartitionUnsplit()
    ensures Unsplit("" + "partition", " on ")
  {}

  lemma OnlyFaultsRead(text: string, f: Fault)
    requires ReadFault(text) == Ok(f)
    ensures exists kind, sender, receiver, span :: FaultIn(text, f, kind, sender, receiver, span)
  {
    hide ReadWindow, ReadNode, ReadOdds, SplitOnce, Value, IsDigits;
    var (kind, rest) := SplitOnce(text, ON).value;
    var (link, span) := SplitOnce(rest, FROM).value;
    var (from, to) := SplitOnce(link, TO).value;
    NodeReadIff(from, f.sender);
    NodeReadIff(to, f.receiver);
    var s :| NumberIn(s, f.sender) && from == "node " + s;
    var r :| NumberIn(r, f.receiver) && to == "node " + r;
    Rejoined(text, kind, rest, link, span, s, r);
    if f.Loss? {
      OddsReadIff(kind[5..], f.odds);
      assert kind == "loss " + kind[5..];
      assert FaultIn(text, f, kind[5..], s, r, span);
    } else {
      assert "" + kind == kind;
      assert FaultIn(text, f, kind, s, r, span);
    }
  }

  lemma Rejoined(text: string, kind: string, rest: string, link: string, span: string, sender: string, receiver: string)
    requires SplitOnce(text, ON) == Some((kind, rest)) && SplitOnce(rest, FROM) == Some((link, span))
    requires SplitOnce(link, TO) == Some(("node " + sender, "node " + receiver))
    ensures text == kind + " on node " + sender + " -> node " + receiver + " from " + span
  {
    hide SplitOnce, StartsWith;
    SplitFirst(text, ON);
    SplitFirst(rest, FROM);
    SplitFirst(link, TO);
    assert text == kind + " on " + ("node " + sender + " -> " + ("node " + receiver) + " from " + span);
  }

  /** A fault is read from exactly the texts that say it. */
  lemma FaultReadIff(text: string, f: Fault)
    ensures ReadFault(text) == Ok(f) <==> exists kind, sender, receiver, span :: FaultIn(text, f, kind, sender, receiver, span)
  {
    if ReadFault(text) == Ok(f) { OnlyFaultsRead(text, f); }
    if kind, sender, receiver, span :| FaultIn(text, f, kind, sender, receiver, span) {
      FaultReads(text, f, kind, sender, receiver, span);
    }
  }

  // ---------------------------------------------------------------------------------------------
  // Schedules and repros: what is accepted, and where a refusal points

  predicate AllRead(lines: seq<string>, faults: seq<Fault>) {
    |lines| == |faults| && forall i :: 0 <= i < |lines| ==> ReadFault(lines[i]) == Ok(faults[i])
  }

  /** `n` is the first line that reads as no fault. */
  predicate FirstUnread(lines: seq<string>, n: nat, e: ParseFaultError) {
    && n < |lines| && ReadFault(lines[n]) == Err(e)
    && forall i :: 0 <= i < n ==> ReadFault(lines[i]).Ok?
  }

  lemma {:induction false} FaultsReadIff(lines: seq<string>, line: nat, faults: seq<Fault>)
    ensures ReadFaults(lines, line) == Ok(faults) <==> AllRead(lines, faults)
  {
    hide ReadFault;
    if lines != [] && faults != [] {
      FaultsReadIff(lines[1..], line + 1, faults[1..]);
      assert faults == [faults[0]] + faults[1..];
      if AllRead(lines[1..], faults[1..]) && ReadFault(lines[0]) == Ok(faults[0]) {
        forall i | 0 <= i < |lines| ensures ReadFault(lines[i]) == Ok(faults[i]) {
          if i > 0 { assert lines[i] == lines[1..][i - 1] && faults[i] == faults[1..][i - 1]; }
        }
      }
      if AllRead(lines, faults) { assert AllRead(lines[1..], faults[1..]); }
    }
  }

  lemma {:induction false} FaultsRefusedIff(lines: seq<string>, line: nat, n: nat, e: ParseFaultError)
    ensures ReadFaults(lines, line) == Err(BadFaultLine(n, e)) <==> n >= line && FirstUnread(lines, n - line, e)
  {
    hide ReadFault;
    if lines != [] && ReadFault(lines[0]).Ok? {
      FaultsRefusedIff(lines[1..], line + 1, n, e);
      if n > line && FirstUnread(lines[1..], n - line - 1, e) {
        forall i | 0 <= i < n - line ensures ReadFault(lines[i]).Ok? {
          if i > 0 { assert lines[i] == lines[1..][i - 1]; }
        }
        assert FirstUnread(lines, n - line, e);
      }
      if n >= line && FirstUnread(lines, n - line, e) { assert FirstUnread(lines[1..], n - line - 1, e); }
    }
  }

  /** A schedule is read from a header and a line for each of its faults, and from nothing else; a refusal is for there
      being no line at all, for another header, or names the first line that is no fault, counted from one. */
  lemma ScheduleReadIff(text: string, faults: seq<Fault>)
    ensures var lines := Lines(text);
            && (ReadSchedule(text) == Ok(faults)
                <==> lines != [] && lines[0] == "chronoloop faults" && AllRead(lines[1..], faults))
            && (ReadSchedule(text) == Err(MissingHeader) <==> lines == [])
            && (ReadSchedule(text) == Err(BadHeader) <==> lines != [] && lines[0] != "chronoloop faults")
            && forall n: nat, e :: ReadSchedule(text) == Err(BadFaultLine(n, e))
                 <==> lines != [] && lines[0] == "chronoloop faults" && n >= 2 && FirstUnread(lines[1..], n - 2, e)
  {
    hide Lines, AllRead, FirstUnread;
    var lines := Lines(text);
    if lines != [] {
      FaultsReadIff(lines[1..], 2, faults);
      forall n: nat, e
        ensures ReadFaults(lines[1..], 2) == Err(BadFaultLine(n, e)) <==> n >= 2 && FirstUnread(lines[1..], n - 2, e)
      {
        FaultsRefusedIff(lines[1..], 2, n, e);
      }
      NotHeader(lines[1..], 2);
    }
  }

  lemma ScheduleReads(text: string)
    ensures ReadSchedule(text).Ok? ==> Lines(text) != [] && Lines(text)[0] == "chronoloop faults"
  {}

  lemma {:induction false} NotHeader(lines: seq<string>, line: nat)
    ensures ReadFaults(lines, line).Err? ==> ReadFaults(lines, line).error.BadFaultLine?
  {
    hide ReadFault;
    if lines != [] { NotHeader(lines[1..], line + 1); }
  }

  lemma FailureSaid(text: string, o: Outcome)
    requires o.Fail? && R.ReadOutcome(text) == Ok(o)
    ensures exists digits :: NumberIn(digits, o.step) && text == "failed at step " + digits + ": " + o.reason
  {
    hide Value, IsDigits, SplitOnce, StartsWith, OneLine;
    Started(text, R.FAILED_AT);
    var failure := text[|R.FAILED_AT|..];
    SplitFirst(failure, R.BECAUSE);
    var (digits, reason) := SplitOnce(failure, R.BECAUSE).value;
    assert NumberIn(digits, o.step) && reason == o.reason;
    assert text == "failed at step " + (digits + ": " + reason) == "failed at step " + digits + ": " + reason;
  }

  lemma FailureReads(digits: string, o: Outcome)
    requires o.Fail? && o.step <= END_OF_TIME && NumberIn(digits, o.step)
    ensures R.ReadOutcome("failed at step " + digits + ": " + o.reason) == Ok(o)
  {
    DigitsOnly(digits, ':');
    hide Value, IsDigits, SplitOnce, StripPrefix;
    var text := "failed at step " + digits + ": " + o.reason;
    assert text == "failed at step " + (digits + ": " + o.reason) && text[0] == 'f' && R.PASSED[0] == 'p';
    StripPrefixed(R.FAILED_AT, digits + R.BECAUSE + o.reason);
    SplitHere(digits, R.BECAUSE, o.reason);
  }

  /** An outcome is read from exactly the texts that say it, a failure's reason being whatever follows its step. */
  lemma OutcomeReadIff(text: string, o: Outcome)
    ensures R.ReadOutcome(text) == Ok(o)
            <==> if o.Pass? then text == "passed"
                 else o.step <= END_OF_TIME
                      && exists digits :: NumberIn(digits, o.step) && text == "failed at step " + digits + ": " + o.reason
  {
    if o.Fail? {
      if R.ReadOutcome(text) == Ok(o) { FailureSaid(text, o); }
      if digits :| o.step <= END_OF_TIME && NumberIn(digits, o.step) && text == "failed at step " + digits + ": " + o.reason {
        FailureReads(digits, o);
      }
    }
  }

  lemma HeaderSaid(text: string, system: R.System, seed: u64, name: string)
    requires R.ReadHeader(text) == Some((system, seed)) && name == if system.Quorum? then "quorum" else "reconciler"
    ensures exists digits :: NumberIn(digits, seed) && text == "chronoloop repro " + name + " seed " + digits
  {
    hide Value, IsDigits, SplitOnce, StartsWith;
    Started(text, R.HEADER);
    var named := text[|R.HEADER|..];
    SplitFirst(named, R.SEED);
    var (said, digits) := SplitOnce(named, R.SEED).value;
    assert said == name && NumberIn(digits, seed);
    assert text == "chronoloop repro " + (name + " seed " + digits) == "chronoloop repro " + name + " seed " + digits;
  }

  /** A repro's first line is read as a system and a seed from exactly the texts that name them. */
  lemma HeaderReadIff(text: string, system: R.System, seed: u64)
    ensures R.ReadHeader(text) == Some((system, seed))
            <==> exists digits :: NumberIn(digits, seed)
                   && text == "chronoloop repro " + (if system.Quorum? then "quorum" else "reconciler") + " seed " + digits
  {
    hide Value, IsDigits, SplitOnce, StartsWith, Unsplit;
    var name := if system.Quorum? then "quorum" else "reconciler";
    if R.ReadHeader(text) == Some((system, seed)) {
      HeaderSaid(text, system, seed, name);
    }
    if digits :| NumberIn(digits, seed) && text == "chronoloop repro " + name + " seed " + digits {
      assert text == R.HEADER + (name + R.SEED + digits) && R.WriteSystem(system) == name;
      R.SystemReads(system);
      StripPrefixed(R.HEADER, name + R.SEED + digits);
      SplitHere(name, R.SEED, digits);
    }
  }

  /** How far down a repro's lines its first two are what they should be. */
  predicate NamesRun(lines: seq<string>) {
    lines != [] && R.ReadHeader(lines[0]).Some?
  }

  predicate NamesFailure(lines: seq<string>) {
    NamesRun(lines) && |lines| > 1 && R.ReadOutcome(lines[1]).Ok? && R.ReadOutcome(lines[1]).value.Fail?
  }

  predicate HoldsSchedule(lines: seq<string>) {
    NamesFailure(lines) && |lines| > 2 && lines[2] == "chronoloop faults"
  }

  /** A repro is read from a line naming the run, a line naming the failure, and a schedule, and from nothing else. A
      refusal is for the first of those that is not there, and a fault that cannot be read is named by its line in the
      whole file. */
  lemma ReproReadIff(text: string, r: R.Repro, n: nat, e: ParseFaultError)
    ensures var lines, read := Lines(text), R.ReadRepro(text);
            && (read == Ok(r) <==>
                  HoldsSchedule(lines) && R.ReadHeader(lines[0]) == Some((r.system, r.seed))
                  && R.ReadOutcome(lines[1]) == Ok(r.expected) && AllRead(lines[3..], r.faults))
            && (read == Err(R.MissingHeader) <==> lines == [])
            && (read == Err(R.BadHeader) <==> lines != [] && !NamesRun(lines))
            && (read.Err? && read.error.BadFailure? <==>
                  NamesRun(lines) && (|lines| == 1 || R.ReadOutcome(lines[1]).Err?))
            && (read == Err(R.Refused(R.HeldUp)) <==>
                  NamesRun(lines) && |lines| > 1 && R.ReadOutcome(lines[1]) == Ok(Pass))
            && (read == Err(R.BadSchedule) <==> NamesFailure(lines) && !HoldsSchedule(lines))
            && (read == Err(R.BadFault(n, e)) <==>
                  HoldsSchedule(lines) && n >= 4 && FirstUnread(lines[3..], n - 4, e))
  {
    hide Lines, AllRead, FirstUnread, R.ReadHeader, R.ReadOutcome, R.TakeLine, ReadSchedule;
    TakenIsFirst(text);
    if R.TakeLine(text).Some? {
      var rest := R.TakeLine(text).value.1;
      TakenIsFirst(rest);
      if R.TakeLine(rest).Some? {
        var faults := R.TakeLine(rest).value.1;
        assert Lines(text)[2..] == Lines(faults) && Lines(text)[1] == R.TakeLine(rest).value.0;
        ScheduleReadIff(faults, r.faults);
        ScheduleReads(faults);
        if Lines(faults) != [] {
          assert Lines(text)[2] == Lines(faults)[0] && Lines(text)[3..] == Lines(faults)[1..];
        }
        if n >= 2 {
          assert R.Nested(BadFaultLine(n - 2, e)) == R.BadFault(n, e);
        }
      }
    }
  }

  // ---------------------------------------------------------------------------------------------
  // Traces

  ghost predicate StepIn(text: string, s: T.Step, at: string) {
    ReadTime(at) == Ok(s.at) && text == at + " " + HexText(s.state) + " " + s.message
  }

  /** A step is read from exactly the texts that give an instant, the hash's own digits, and one line of message. */
  lemma StepReadIff(text: string, s: T.Step)
    ensures T.ReadStep(text) == Ok(s) <==> exists at :: StepIn(text, s, at)
  {
    hide SplitOnce, ReadTime, StartsWith, Unsplit;
    if T.ReadStep(text) == Ok(s) {
      SplitFirst(text, " ");
      var (at, rest) := SplitOnce(text, " ").value;
      SplitFirst(rest, " ");
      assert text == at + " " + (HexText(s.state) + " " + s.message);
      assert StepIn(text, s, at);
    }
    if at :| StepIn(text, s, at) {
      assert text == at + " " + (HexText(s.state) + " " + s.message);
      WordUnsplit(at, s.at);
      SplitHere(at, " ", HexText(s.state) + " " + s.message);
      HexUnsplit(s.state);
      SplitHere(HexText(s.state), " ", s.message);
      HashOfRoundTrip(s.state);
    }
  }

  lemma WordUnsplit(text: string, at: u64)
    requires ReadTime(text) == Ok(at)
    ensures Unsplit(text, " ") && Unsplit(text, " to seed ")
  {
    hide ReadTime;
    WordOfTime(text, at);
  }

  lemma HexUnsplit(d: Digest)
    ensures Unsplit(HexText(d), " ")
  {
    HexIsWord(d);
  }

  ghost predicate ForkIn(text: string, f: T.ForkLine, at: string, seed: string) {
    ReadTime(at) == Ok(f.at) && NumberIn(seed, f.seed) && text == "forked at " + at + " to seed " + seed
  }

  lemma ForkReadIff(text: string, f: T.ForkLine)
    requires f.seed <= END_OF_TIME
    ensures T.ReadFork(text) == Some(f) <==> exists at, seed :: ForkIn(text, f, at, seed)
  {
    hide SplitOnce, ReadTime, StartsWith, Unsplit, Value, IsDigits;
    if T.ReadFork(text) == Some(f) {
      Started(text, T.FORKED_AT);
      var named := text[|T.FORKED_AT|..];
      SplitFirst(named, T.TO_SEED);
      var (at, seed) := SplitOnce(named, T.TO_SEED).value;
      assert text == "forked at " + (at + " to seed " + seed) == "forked at " + at + " to seed " + seed;
      assert ForkIn(text, f, at, seed);
    }
    if at, seed :| ForkIn(text, f, at, seed) {
      assert text == T.FORKED_AT + (at + " to seed " + seed);
      StripPrefixed(T.FORKED_AT, at + " to seed " + seed);
      WordUnsplit(at, f.at);
      SplitHere(at, T.TO_SEED, seed);
    }
  }

  /** A line of a trace: the number of a step, and what follows it. */
  ghost predicate LineIn(text: string, digits: string, number: nat, record: string) {
    NumberIn(digits, number) && number <= END_OF_TIME && text == "step " + digits + " " + record
  }

  lemma LineSplits(text: string, digits: string, number: nat, record: string)
    requires LineIn(text, digits, number, record)
    ensures StripPrefix(text, "step ") == Some(digits + " " + record)
    ensures SplitOnce(digits + " " + record, " ") == Some((digits, record)) && ReadDigits(digits, END_OF_TIME) == Some(number)
  {
    assert text == "step " + (digits + " " + record);
    StripPrefixed("step ", digits + " " + record);
    DigitsOnly(digits, ' ');
    SplitHere(digits, " ", record);
  }

  lemma LineJoins(text: string, numbered: string, digits: string, number: nat, record: string)
    requires StripPrefix(text, "step ") == Some(numbered) && SplitOnce(numbered, " ") == Some((digits, record))
    requires ReadDigits(digits, END_OF_TIME) == Some(number)
    ensures LineIn(text, digits, number, record)
  {
    hide SplitOnce, StartsWith, Value, IsDigits;
    Started(text, "step ");
    SplitFirst(numbered, " ");
    assert text == "step " + (digits + " " + record) == "step " + digits + " " + record;
  }

  /** A line is read as the step expected there from exactly the texts that number it so and go on to say it; one that
      gives another number is refused for that, one that gives this number and no step is refused for what is wrong with
      it, and one with no number at all is unnumbered. */
  lemma NumberedReadIff(text: string, line: nat, expected: nat, s: T.Step, n: nat, e: T.ParseStepError)
    ensures var read := T.ReadNumbered(text, line, expected);
            && (read == Ok(s) <==> exists digits, record :: LineIn(text, digits, expected, record) && T.ReadStep(record) == Ok(s))
            && (read == Err(T.OutOfSequence(line, expected, n)) <==>
                  n != expected && exists digits, record :: LineIn(text, digits, n, record))
            && (read == Err(T.BadStep(line, e)) <==>
                  exists digits, record :: LineIn(text, digits, expected, record) && T.ReadStep(record) == Err(e))
            && (read == Err(T.Unnumbered(line)) <==> !exists digits, number: nat, record :: LineIn(text, digits, number, record))
  {
    hide T.ReadStep, LineIn, ReadDigits, StripPrefix, SplitOnce;
    if digits, number, record :| LineIn(text, digits, number, record) {
      LineSplits(text, digits, number, record);
      forall d, m, r | LineIn(text, d, m, r) ensures d == digits && m == number && r == record {
        LineSplits(text, d, m, r);
      }
    } else if StripPrefix(text, T.STEP).Some? {
      var numbered := StripPrefix(text, T.STEP).value;
      if SplitOnce(numbered, " ").Some? {
        var (digits, record) := SplitOnce(numbered, " ").value;
        if ReadDigits(digits, END_OF_TIME).Some? {
          LineJoins(text, numbered, digits, ReadDigits(digits, END_OF_TIME).value, record);
          assert false;
        }
      }
    }
  }

  /** Every line reads as the step of its place. */
  predicate AllSteps(lines: seq<string>, line: nat, expected: nat, steps: seq<T.Step>) {
    |lines| == |steps| && forall i :: 0 <= i < |lines| ==> T.ReadNumbered(lines[i], line + i, expected + i) == Ok(steps[i])
  }

  predicate FirstUnstepped(lines: seq<string>, line: nat, expected: nat, n: nat, e: T.ParseTraceError) {
    && n < |lines| && T.ReadNumbered(lines[n], line + n, expected + n) == Err(e)
    && forall i :: 0 <= i < n ==> T.ReadNumbered(lines[i], line + i, expected + i).Ok?
  }

  lemma {:induction false} StepsReadIff(lines: seq<string>, line: nat, expected: nat, steps: seq<T.Step>)
    ensures T.ReadSteps(lines, line, expected) == Ok(steps) <==> AllSteps(lines, line, expected, steps)
  {
    hide T.ReadNumbered;
    if lines != [] && steps != [] {
      StepsReadIff(lines[1..], line + 1, expected + 1, steps[1..]);
      assert steps == [steps[0]] + steps[1..];
      if AllSteps(lines[1..], line + 1, expected + 1, steps[1..]) && T.ReadNumbered(lines[0], line, expected) == Ok(steps[0]) {
        forall i | 0 <= i < |lines| ensures T.ReadNumbered(lines[i], line + i, expected + i) == Ok(steps[i]) {
          if i > 0 {
            assert T.ReadNumbered(lines[1..][i - 1], line + 1 + (i - 1), expected + 1 + (i - 1)) == Ok(steps[1..][i - 1]);
          }
        }
      }
      if AllSteps(lines, line, expected, steps) {
        assert T.ReadNumbered(lines[0], line + 0, expected + 0) == Ok(steps[0]);
        forall i | 0 <= i < |lines[1..]|
          ensures T.ReadNumbered(lines[1..][i], line + 1 + i, expected + 1 + i) == Ok(steps[1..][i])
        {
          assert T.ReadNumbered(lines[i + 1], line + (i + 1), expected + (i + 1)) == Ok(steps[i + 1]);
        }
      }
    }
  }

  lemma {:induction false} StepsRefusedAt(lines: seq<string>, line: nat, expected: nat) returns (n: nat)
    requires T.ReadSteps(lines, line, expected).Err?
    ensures FirstUnstepped(lines, line, expected, n, T.ReadSteps(lines, line, expected).error)
  {
    hide T.ReadNumbered;
    n := 0;
    if T.ReadNumbered(lines[0], line, expected).Ok? {
      var m := StepsRefusedAt(lines[1..], line + 1, expected + 1);
      n := m + 1;
      assert T.ReadNumbered(lines[1..][m], line + 1 + m, expected + 1 + m) == T.ReadNumbered(lines[n], line + n, expected + n);
      forall i | 0 <= i < n ensures T.ReadNumbered(lines[i], line + i, expected + i).Ok? {
        if i > 0 { assert T.ReadNumbered(lines[1..][i - 1], line + 1 + (i - 1), expected + 1 + (i - 1)).Ok?; }
      }
    }
  }

  predicate SeedIn(text: string, seed: nat, digits: string) {
    IsDigits(digits) && Value(digits) == seed <= END_OF_TIME && text == "chronoloop trace seed " + digits
  }

  /** The lines before the first of a trace's steps: its header, and its fork's if it has one. */
  function Opening(lines: seq<string>): nat {
    if |lines| > 1 && StartsWith(lines[1], "forked at ") then 2 else 1
  }

  lemma SeedReads(text: string)
    ensures var named := StripPrefix(text, T.HEADER);
            var seed := if named.Some? then ReadDigits(named.value, END_OF_TIME) else None;
            && (seed.Some? ==> SeedIn(text, seed.value, named.value))
            && forall digits, n: nat :: SeedIn(text, n, digits) ==> seed == Some(n)
  {
    var named := StripPrefix(text, T.HEADER);
    if named.Some? { Started(text, T.HEADER); }
    forall digits, n: nat | SeedIn(text, n, digits) ensures named == Some(digits) {
      StripPrefixed(T.HEADER, digits);
    }
  }

  /** A trace is read from a header that gives its seed, its fork's line if it has one, and a line for each of its steps
      in turn, and from nothing else. */
  lemma TraceReadIff(text: string, t: T.Trace)
    ensures var lines := Lines(text);
            T.ReadTrace(text) == Ok(t) <==>
              && lines != [] && (exists digits :: SeedIn(lines[0], t.seed, digits))
              && (if Opening(lines) == 1 then t.fork.None? else t.fork.Some? && T.ReadFork(lines[1]) == t.fork)
              && AllSteps(lines[Opening(lines)..], Opening(lines) + 1, 0, t.steps)
  {
    hide Lines, T.ReadFork, AllSteps, SeedIn, ReadDigits, StripPrefix, StartsWith;
    var lines := Lines(text);
    if lines != [] {
      SeedReads(lines[0]);
      StepsReadIff(lines[Opening(lines)..], Opening(lines) + 1, 0, t.steps);
      if |lines| > 1 { assert lines[1..][0] == lines[1] && lines[1..][1..] == lines[2..]; }
    }
  }

  /** A refusal is for there being no line at all, for a header that gives no seed, for a line that sets out to be a fork's
      and is not, or else for the first line that is not the step of its place. */
  lemma TraceRefusedAt(text: string) returns (n: nat)
    requires T.ReadTrace(text).Err?
    ensures var lines, e := Lines(text), T.ReadTrace(text).error;
            && (e == T.MissingHeader <==> lines == [])
            && (e == T.BadHeader <==> lines != [] && !exists digits, seed: nat :: SeedIn(lines[0], seed, digits))
            && (e == T.BadFork <==>
                  lines != [] && (exists digits, seed: nat :: SeedIn(lines[0], seed, digits))
                  && Opening(lines) == 2 && T.ReadFork(lines[1]).None?)
            && (!e.MissingHeader? && !e.BadHeader? && !e.BadFork? ==>
                  FirstUnstepped(lines[Opening(lines)..], Opening(lines) + 1, 0, n, e))
  {
    hide Lines, T.ReadFork, FirstUnstepped, SeedIn, ReadDigits, StripPrefix, StartsWith;
    var lines := Lines(text);
    n := 0;
    if lines != [] {
      SeedReads(lines[0]);
      if |lines| > 1 { assert lines[1..][0] == lines[1] && lines[1..][1..] == lines[2..]; }
      var k := Opening(lines);
      if T.ReadSteps(lines[k..], k + 1, 0).Err? {
        n := StepsRefusedAt(lines[k..], k + 1, 0);
        StepError(lines[k..], k + 1, 0);
      }
    }
  }

  lemma {:induction false} StepError(lines: seq<string>, line: nat, expected: nat)
    requires T.ReadSteps(lines, line, expected).Err?
    ensures var e := T.ReadSteps(lines, line, expected).error; !e.MissingHeader? && !e.BadHeader? && !e.BadFork?
  {
    hide T.ReadStep, SplitOnce, ReadDigits, StripPrefix;
    if T.ReadNumbered(lines[0], line, expected).Ok? { StepError(lines[1..], line + 1, expected + 1); }
  }
}
