/** What a client of the replicated log may count on: what is applied is what clients sent, each command at
    most once, and a command sent after another was done comes after it, on every replica and for good. */
module ReplogOrder {
  import opened Replog
  import opened ReplogInv
  import opened ReplogRuns
  import opened ReplogSafe
  import opened ReplogSafety
  import opened ReplogSteps

  // ---------------------------------------------------------------------------------------------
  // Only what was sent

  /** The commands that have reached any replica in the first `k` steps. */
  ghost function Asked(steps: seq<Step>, k: nat): set<nat>
    requires k <= |steps|
  {
    set n | 0 <= n < k && steps[n].Client? :: steps[n].command
  }

  predicate Known(log: Log, asked: set<nat>) {
    forall i :: 0 <= i < |log| && log[i].op.Command? ==> log[i].op.command in asked
  }

  ghost predicate AllKnown(h: History, asked: set<nat>) {
    forall t :: t in h.logs ==> Known(h.logs[t], asked)
  }

  /** Replicas pass no command on: a client's message is not one a replica sends. */
  ghost predicate NoneForwarded(sent: set<Packet>) {
    forall p :: p in sent ==> !p.message.Submit?
  }

  lemma KnownFrom(h: History, log: Log, asked: set<nat>)
    requires AllKnown(h, asked) && FromLeaders(h.logs, log)
    ensures Known(log, asked)
  {
    if log != [] {
      LastsLeader(h.logs, log);
      var full := h.logs[log[|log| - 1].term];
      forall i | 0 <= i < |log| ensures log[i] == full[i] {
        SameAt(log, full, |log|, i);
      }
    }
  }

  lemma ReplicaKnown(y: System, i: nat, asked: set<nat>)
    requires Inv(y) && AllKnown(y.history, asked) && i < |y.replicas|
    ensures Known(y.replicas[i].log, asked)
  {
    hide Inv, FromLeaders, ReplicaOk, Known, AllKnown;
    OkAt(y, i);
    PastOf(y.history, y.replicas[i], i);
    KnownFrom(y.history, y.replicas[i].log, asked);
  }

  lemma KnownMore(log: Log, entry: Entry, asked: set<nat>)
    requires Known(log, asked) && (entry.op.Command? ==> entry.op.command in asked)
    ensures Known(log + [entry], asked)
  {}

  lemma HandleKnown(y: System, i: nat, peer: nat, m: Message, asked: set<nat>)
    requires Inv(y) && AllKnown(y.history, asked) && i < |y.replicas|
    requires m.Submit? ==> m.command in asked
    ensures AllKnown(Handle(y, i, peer, m).history, asked)
  {
    hide Inv, Known, Take, Ops, CopyFor, Reached;
    var r := y.replicas[i];
    ReplicaKnown(y, i, asked);
    match m
    case Vote(_, _) => KnownMore(r.log, Entry(r.term, Noop), asked);
    case Submit(command) => KnownMore(r.log, Entry(r.term, Command(command)), asked);
    case _ =>
  }

  lemma HandleForwardsNone(y: System, i: nat, peer: nat, m: Message)
    requires i < |y.replicas| && NoneForwarded(y.sent)
    ensures NoneForwarded(Handle(y, i, peer, m).sent)
  {
    hide Take, Ops, Reached;
  }

  lemma StepKnown(y: System, step: Step, asked: set<nat>)
    requires Inv(y) && AllKnown(y.history, asked) && NoneForwarded(y.sent) && Enabled(y, step)
    requires step.Client? ==> step.command in asked
    ensures AllKnown(Next(y, step).history, asked) && NoneForwarded(Next(y, step).sent)
  {
    hide Inv, Handle, AllKnown;
    match step
    case Timer(i) =>
    case Deliver(p) =>
      var term := TermOf(p.message);
      if term.Some? && term.value > y.replicas[p.dest].term {
        AdoptInv(y, p.dest, term.value);
        HandleKnown(Adopt(y, p.dest, term.value), p.dest, p.sender, p.message, asked);
        HandleForwardsNone(Adopt(y, p.dest, term.value), p.dest, p.sender, p.message);
      } else {
        HandleKnown(y, p.dest, p.sender, p.message, asked);
        HandleForwardsNone(y, p.dest, p.sender, p.message);
      }
    case Client(i, command) =>
      HandleKnown(y, i, REPLICAS, Submit(command), asked);
      HandleForwardsNone(y, i, REPLICAS, Submit(command));
  }

  lemma KnownLater(h: History, asked: set<nat>, more: set<nat>)
    requires AllKnown(h, asked) && asked <= more
    ensures AllKnown(h, more)
  {}

  lemma {:induction false} RunKnown(ys: seq<System>, steps: seq<Step>, k: nat)
    requires Runs(ys, steps) && k < |ys|
    ensures AllKnown(ys[k].history, Asked(steps, k)) && NoneForwarded(ys[k].sent)
  {
    hide Inv, Next, Enabled, AllKnown, NoneForwarded;
    if k == 0 {
      NothingKnown(Asked(steps, 0));
    } else {
      RunKnown(ys, steps, k - 1);
      RunInv(ys, steps, k - 1);
      KnownLater(ys[k - 1].history, Asked(steps, k - 1), Asked(steps, k));
      assert steps[k - 1].Client? ==> steps[k - 1].command in Asked(steps, k);
      StepKnown(ys[k - 1], steps[k - 1], Asked(steps, k));
    }
  }

  lemma NothingKnown(asked: set<nat>)
    ensures AllKnown(Start().history, asked) && NoneForwarded(Start().sent)
  {}

  /** What a replica has applied is what its own log holds where it stands, and only commands some client
      sent. */
  lemma AppliedIsLogged(ys: seq<System>, steps: seq<Step>, k: nat, i: nat, at: nat)
    requires Runs(ys, steps) && k < |ys| && i < |ys[k].replicas| && at < |ys[k].replicas[i].applied|
    ensures var r := ys[k].replicas[i];
            && |r.applied| == r.commit <= |r.log| && r.applied[at] == r.log[at].op
            && (r.applied[at].Command? ==> r.applied[at].command in Asked(steps, k))
  {
    hide Inv, ReplicaOk, AllKnown, Committed, FromLeaders, UpTo, Past, VoterOk, LeaderOk, KnowsOk, HoldsOne, Asked;
    RunInv(ys, steps, k);
    RunKnown(ys, steps, k);
    ReplicaKnown(ys[k], i, Asked(steps, k));
    OkAt(ys[k], i);
    PastOf(ys[k].history, ys[k].replicas[i], i);
  }

  // ---------------------------------------------------------------------------------------------
  // The order clients see

  /** Whether a replica would tell a client that a command is done: its log holds it, committed. */
  predicate Answers(r: Replica, command: nat) {
    exists at :: 0 <= at < r.commit && at < |r.log| && r.log[at].op == Command(command)
  }

  lemma AnsweredIsApplied(ys: seq<System>, steps: seq<Step>, k: nat, i: nat, command: nat) returns (at: nat)
    requires Runs(ys, steps) && k < |ys| && i < |ys[k].replicas| && Answers(ys[k].replicas[i], command)
    ensures at < |ys[k].replicas[i].applied| && ys[k].replicas[i].applied[at] == Command(command)
  {
    hide Inv, ReplicaOk, Committed, FromLeaders, UpTo, Past, VoterOk, LeaderOk, KnowsOk, HoldsOne;
    RunInv(ys, steps, k);
    OkAt(ys[k], i);
    PastOf(ys[k].history, ys[k].replicas[i], i);
    var r := ys[k].replicas[i];
    at :| 0 <= at < r.commit && at < |r.log| && r.log[at].op == Command(command);
  }

  /** A command that first reached a replica after another could be answered as done is applied after it, by
      every replica, at every moment from then on. */
  lemma RealTimeOrder(ys: seq<System>, steps: seq<Step>, k: nat, m: nat, i: nat, j: nat,
                      done: nat, later: nat, laterAt: nat)
    requires Runs(ys, steps) && k <= m < |ys| && i < |ys[k].replicas| && j < |ys[m].replicas|
    requires Answers(ys[k].replicas[i], done) && later !in Asked(steps, k)
    requires laterAt < |ys[m].replicas[j].applied| && ys[m].replicas[j].applied[laterAt] == Command(later)
    ensures exists doneAt :: 0 <= doneAt < laterAt && ys[m].replicas[j].applied[doneAt] == Command(done)
  {
    hide Inv, Asked, Answers;
    var doneAt := AnsweredIsApplied(ys, steps, k, i, done);
    AppliedForGood(ys, steps, k, m, i, j);
    NotAppliedYet(ys, steps, k, i, later);
    assert ys[m].replicas[j].applied[doneAt] == Command(done);
  }

  lemma NotAppliedYet(ys: seq<System>, steps: seq<Step>, k: nat, i: nat, command: nat)
    requires Runs(ys, steps) && k < |ys| && i < |ys[k].replicas| && command !in Asked(steps, k)
    ensures Command(command) !in ys[k].replicas[i].applied
  {
    hide Inv, Asked;
    forall at | 0 <= at < |ys[k].replicas[i].applied| ensures ys[k].replicas[i].applied[at] != Command(command) {
      AppliedIsLogged(ys, steps, k, i, at);
    }
  }
}
