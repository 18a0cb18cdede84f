/** The written forms, spelled out: every byte of an encoding and every word of a line, as the formats are documented. */
module Forms {
  import opened Bytes
  import opened Clock
  import opened ClockText
  import opened Faults
  import opened Hashing
  import opened HashText
  import opened Outcomes
  import opened Text
  import opened Tree
  import FaultText
  import Order
  import ReproText
  import TraceText
  import W = World

  // ---------------------------------------------------------------------------------------------
  // Bytes

  /** A number is written in eight bytes, the least of them first. */
  lemma EightBytes(n: u64)
    ensures var bs: seq<int> := Le(n, 8);
            n == bs[0] + 256 * (bs[1] + 256 * (bs[2] + 256 * (bs[3] + 256 * (bs[4] + 256 * (bs[5] + 256 * (bs[6] + 256 * bs[7]))))))
  {
    SpanEight();
    LeRoundTrip(n, 8);
    var bs := Le(n, 8);
    FirstFour(bs);
    FirstFour(bs[4..]);
    assert bs[4..][4..] == [];
  }

  lemma FirstFour(bs: seq<byte>)
    requires |bs| >= 4
    ensures FromLe(bs) == bs[0] + 256 * (bs[1] + 256 * (bs[2] + 256 * (bs[3] + 256 * FromLe(bs[4..]))))
  {
    assert bs[1..][1..] == bs[2..] && bs[2..][1..] == bs[3..] && bs[3..][1..] == bs[4..];
    assert FromLe(bs) == bs[0] + 256 * FromLe(bs[1..]);
    assert FromLe(bs[1..]) == bs[1] + 256 * FromLe(bs[2..]);
    assert FromLe(bs[2..]) == bs[2] + 256 * FromLe(bs[3..]);
    assert FromLe(bs[3..]) == bs[3] + 256 * FromLe(bs[4..]);
  }

  /** A value is a byte for its kind, and then what the kind holds. */
  lemma ValueForm(v: W.Value)
    ensures W.ValueBytes(v)
            == match v
               case Flag(flag) => [0, if flag then 1 else 0]
               case Count(count) => [1] + Le(count, 8)
               case Text(text) => [2] + Utf8(text)
               case Instant(at) => [3] + Le(at, 8)
  {}

  /** A leaf is a zero byte, how long it is and its bytes; a branch is a one byte, how many children it has, and each
      child in order of name: how long the name is, the name, and the child's own name. */
  lemma ShellForm(bytes: seq<byte>, children: map<Name, Digest>)
    requires |bytes| < 0x1_0000_0000_0000_0000 && |children| < 0x1_0000_0000_0000_0000
    ensures ShellBytes(LeafShell(bytes)) == [0] + Le(|bytes|, 8) + bytes
    ensures ShellBytes(BranchShell(children))
            == [1] + Le(|children|, 8) + ChildBytes(Order.Sorted(children.Keys), children)
  {
    assert [0] + (Le(|bytes|, 8) + bytes) == [0] + Le(|bytes|, 8) + bytes;
  }

  lemma {:induction false} ChildForm(names: seq<Name>, children: map<Name, Digest>)
    requires (forall name :: name in names ==> name in children) && names != [] && |Utf8(names[0])| < 0x1_0000_0000_0000_0000
    ensures ChildBytes(names, children)
            == Le(|Utf8(names[0])|, 8) + Utf8(names[0]) + children[names[0]] + ChildBytes(names[1..], children)
  {
    var length, name, child, rest := Le(|Utf8(names[0])|, 8), Utf8(names[0]), children[names[0]], ChildBytes(names[1..], children);
    assert length + (name + (child + rest)) == length + name + child + rest;
  }

  // ---------------------------------------------------------------------------------------------
  // Numbers

  /** A number is written in ten digits, the most significant first, and begins with no nought unless it is nought. */
  lemma {:induction false} DecimalForm(n: nat)
    ensures forall i :: 0 <= i < |Decimal(n)| ==> '0' <= Decimal(n)[i] <= '9'
    ensures Decimal(n)[0] == '0' <==> n == 0
    ensures n < 10 ==> Decimal(n) == ["0123456789"[n]]
    ensures n >= 10 ==> Decimal(n) == Decimal(n / 10) + Decimal(n % 10)
  {
    if n >= 10 { DecimalForm(n / 10); }
  }

  /** A state's name is two lower-case digits to the byte, sixteen to a place. */
  lemma {:induction false} HexForm(bs: seq<byte>, i: nat)
    requires i < |bs|
    ensures |HexText(bs)| == 2 * |bs|
    ensures HexText(bs)[2 * i] == "0123456789abcdef"[bs[i] / 16] && HexText(bs)[2 * i + 1] == "0123456789abcdef"[bs[i] % 16]
  {
    if |bs| > 1 { HexForm(bs[1..], if i > 0 then i - 1 else 0); }
  }

  /** An instant is its seconds, a point, nine digits of nanoseconds and an s. */
  lemma TimeForm(at: u64)
    ensures exists nanos: string ::
              && |nanos| == 9 && IsDigits(nanos) && Value(nanos) == at % 1_000_000_000
              && WriteTime(at) == Decimal(at / 1_000_000_000) + "." + nanos + "s"
  {
    var nanos := Padded(at % SECOND, FRACTION_DIGITS);
    NineTens();
    PaddedValue(at % SECOND, FRACTION_DIGITS);
    assert |nanos| == 9;
  }

  // ---------------------------------------------------------------------------------------------
  // Lines

  function SpanForm(w: Window): string {
    WriteTime(w.start) + " until " + (if w.end == END_OF_TIME then "forever" else WriteTime(w.end))
  }

  /** Where a fault's line says what it is about, and for how long. */
  function LinkForm(sender: u64, receiver: u64, during: Window): string {
    "node " + Decimal(sender) + " -> node " + Decimal(receiver) + " from " + SpanForm(during)
  }

  lemma LinkIs(f: Fault)
    ensures FaultText.WriteLink(f) + " from " + FaultText.WriteSpan(f.during) == LinkForm(f.sender, f.receiver, f.during)
  {
    hide Decimal, WriteTime;
    var a, b := Decimal(f.sender), Decimal(f.receiver);
    assert ("node " + a) + " -> " + ("node " + b) == "node " + a + " -> node " + b;
  }

  /** A fault's line names what it does, the direction it does it to, and from when until when. */
  lemma PartitionForm(sender: u64, receiver: u64, during: Window)
    ensures FaultText.WriteFault(Partition(sender, receiver, during)) == "partition on " + LinkForm(sender, receiver, during)
  {
    hide Decimal, WriteTime, LinkForm, FaultText.WriteLink, FaultText.WriteSpan;
    var f := Partition(sender, receiver, during);
    LinkIs(f);
    assert FaultText.WriteFault(f) == "partition" + " on " + (FaultText.WriteLink(f) + " from " + FaultText.WriteSpan(f.during));
    assert "partition" + " on " == "partition on ";
  }

  lemma LossForm(sender: u64, receiver: u64, during: Window, odds: Odds)
    ensures FaultText.WriteFault(Loss(sender, receiver, during, odds))
            == "loss " + Decimal(odds.numerator) + " in " + Decimal(odds.denominator) + " on " + LinkForm(sender, receiver, during)
  {
    hide Decimal, WriteTime, LinkForm, FaultText.WriteLink, FaultText.WriteSpan;
    var f := Loss(sender, receiver, during, odds);
    var n, m := Decimal(odds.numerator), Decimal(odds.denominator);
    LinkIs(f);
    assert FaultText.WriteFault(f)
        == ("loss " + (n + " in " + m)) + " on " + (FaultText.WriteLink(f) + " from " + FaultText.WriteSpan(f.during));
    assert "loss " + (n + " in " + m) == "loss " + n + " in " + m;
  }

  /** A schedule is its header and a line for each fault, in the order they stand. */
  lemma ScheduleForm(faults: seq<Fault>)
    ensures FaultText.WriteSchedule(faults) == "chronoloop faults\n" + Unlines(FaultText.FaultLines(faults))
    ensures forall i :: 0 <= i < |faults| ==> FaultText.FaultLines(faults)[i] == FaultText.WriteFault(faults[i])
  {
    hide FaultText.WriteFault;
    assert ([FaultText.HEADER] + FaultText.FaultLines(faults))[1..] == FaultText.FaultLines(faults);
  }

  /** A trace's header names its seed, its fork when and to what it changed seed, and each step its number, its
      instant, the state it left and what happened. */
  lemma TraceForm(t: TraceText.Trace)
    ensures var lines := TraceText.TraceLines(t);
            var steps := if t.fork.Some? then 2 else 1;
            && TraceText.WriteTrace(t) == Unlines(lines) && |lines| == |t.steps| + steps
            && lines[0] == "chronoloop trace seed " + Decimal(t.seed)
            && (t.fork.Some? ==>
                  lines[1] == "forked at " + WriteTime(t.fork.value.at) + " to seed " + Decimal(t.fork.value.seed))
            && forall i :: 0 <= i < |t.steps| ==>
                 lines[steps + i] == "step " + Decimal(i) + " " + WriteTime(t.steps[i].at) + " " + HexText(t.steps[i].state)
                                     + " " + t.steps[i].message
  {
    hide Decimal, WriteTime, HexText;
    var lines, steps := TraceText.TraceLines(t), if t.fork.Some? then 2 else 1;
    if t.fork.Some? {
      assert "forked at " + (WriteTime(t.fork.value.at) + " to seed " + Decimal(t.fork.value.seed))
          == "forked at " + WriteTime(t.fork.value.at) + " to seed " + Decimal(t.fork.value.seed);
    }
    forall i | 0 <= i < |t.steps|
      ensures lines[steps + i] == "step " + Decimal(i) + " " + WriteTime(t.steps[i].at) + " " + HexText(t.steps[i].state)
                                  + " " + t.steps[i].message
    {
      TraceText.StepLineAt(t.steps, 0, i);
      StepForm(i, t.steps[i]);
    }
  }

  lemma StepForm(i: nat, s: TraceText.Step)
    ensures TraceText.Numbered(i, s)
            == "step " + Decimal(i) + " " + WriteTime(s.at) + " " + HexText(s.state) + " " + s.message
  {
    hide Decimal, WriteTime, HexText;
    var n, t, h, m := Decimal(i), WriteTime(s.at), HexText(s.state), s.message;
    assert "step " + (n + " " + (t + " " + (h + " " + m))) == "step " + n + " " + t + " " + h + " " + m;
  }

  /** An outcome is that the run passed, or the step it failed at and why. */
  lemma OutcomeForm(o: Outcome)
    ensures ReproText.WriteOutcome(o)
            == match o
               case Pass => "passed"
               case Fail(reason, step) => "failed at step " + Decimal(step) + ": " + reason
  {
    hide Decimal;
    if o.Fail? {
      assert "failed at step " + (Decimal(o.step) + ": " + o.reason) == "failed at step " + Decimal(o.step) + ": " + o.reason;
    }
  }

  /** A repro starts with a line for the system and its seed, goes on with the outcome expected and ends with the written schedule. */
  lemma ReproForm(r: ReproText.Repro)
    ensures ReproText.WriteRepro(r)
            == "chronoloop repro " + (if r.system.Quorum? then "quorum" else "reconciler") + " seed " + Decimal(r.seed) + "\n"
               + ReproText.WriteOutcome(r.expected) + "\n" + FaultText.WriteSchedule(r.faults)
  {
    hide Decimal, ReproText.WriteOutcome, FaultText.WriteSchedule;
    var s, n, o, f := ReproText.WriteSystem(r.system), Decimal(r.seed), ReproText.WriteOutcome(r.expected), FaultText.WriteSchedule(r.faults);
    assert ("chronoloop repro " + (s + " seed " + n)) + "\n" + (o + "\n" + f)
        == "chronoloop repro " + s + " seed " + n + "\n" + o + "\n" + f;
  }
}
