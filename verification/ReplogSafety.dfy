/** What the replicated log promises of every run, whatever the wire does. */
module ReplogSafety {
  import opened Replog
  import opened ReplogInv
  import opened ReplogRuns
  import opened ReplogSafe
  import opened ReplogSteps
  import opened Wrappers

  // ---------------------------------------------------------------------------------------------
  // At one moment of a run

  /** No two replicas ever led one term. */
  lemma OneLeaderATerm(ys: seq<System>, steps: seq<Step>, k: nat, i: nat, j: nat, t: nat)
    requires Runs(ys, steps) && k < |ys| && i < |ys[k].replicas| && j < |ys[k].replicas|
    requires t in ys[k].replicas[i].led && t in ys[k].replicas[j].led
    ensures i == j
  {
    hide Runs;
    RunInv(ys, steps, k);
    OkAt(ys[k], i);
    OkAt(ys[k], j);
  }

  /** Two logs with an entry of one term at one place are the same up to it. */
  lemma LogsMatch(ys: seq<System>, steps: seq<Step>, k: nat, i: nat, j: nat, at: nat)
    requires Runs(ys, steps) && k < |ys| && i < |ys[k].replicas| && j < |ys[k].replicas|
    requires var a, b := ys[k].replicas[i].log, ys[k].replicas[j].log;
             at < |a| && at < |b| && a[at].term == b[at].term
    ensures ys[k].replicas[i].log[..at + 1] == ys[k].replicas[j].log[..at + 1]
  {
    hide Runs, Inv, FromLeaders, ReplicaOk;
    RunInv(ys, steps, k);
    OkAt(ys[k], i);
    OkAt(ys[k], j);
    PastOf(ys[k].history, ys[k].replicas[i], i);
    PastOf(ys[k].history, ys[k].replicas[j], j);
    Matching(ys[k].history.logs, ys[k].replicas[i].log, ys[k].replicas[j].log, at);
  }

  /** What is committed in a term is in the log of the leader of any term from it on. */
  lemma CommittedInLeaders(h: History, end: nat, n: nat, log: Log, u: nat)
    requires Coherent(h) && Committed(h, end, n, log) && n <= |log| && end <= u && u in h.logs
    ensures Same(log, h.logs[u], n)
  {
    hide Coherent;
    if n > 0 {
      var t: nat, m: nat :| Certified(h, t, m) && t <= end && n <= m && Same(log, h.logs[t], n);
      if t < u {
        LeaderComplete(h, t, m, u);
        SamePrefix(h.logs[u], h.logs[t], m, n);
      }
    }
  }

  lemma LeaderHolds(y: System, leader: nat, i: nat)
    requires Inv(y) && leader < |y.replicas| && i < |y.replicas|
    requires y.replicas[leader].role == Leader && y.replicas[i].term <= y.replicas[leader].term
    ensures var a, r := y.replicas[leader].log, y.replicas[i];
            r.commit <= |a| && r.commit <= |r.log| && a[..r.commit] == r.log[..r.commit]
  {
    hide Inv, ReplicaOk, Coherent, Committed;
    CoherentOf(y);
    OkAt(y, i);
    OkAt(y, leader);
    PastOf(y.history, y.replicas[i], i);
    PastOf(y.history, y.replicas[leader], leader);
    var r := y.replicas[i];
    CommittedInLeaders(y.history, r.term, r.commit, r.log, y.replicas[leader].term);
  }

  /** A leader holds everything committed by any replica whose term it has reached. */
  lemma LeaderHoldsCommitted(ys: seq<System>, steps: seq<Step>, k: nat, leader: nat, i: nat)
    requires Runs(ys, steps) && k < |ys| && leader < |ys[k].replicas| && i < |ys[k].replicas|
    requires ys[k].replicas[leader].role == Leader && ys[k].replicas[i].term <= ys[k].replicas[leader].term
    ensures var a, r := ys[k].replicas[leader].log, ys[k].replicas[i];
            r.commit <= |a| && r.commit <= |r.log| && a[..r.commit] == r.log[..r.commit]
  {
    hide Runs, Inv;
    RunInv(ys, steps, k);
    LeaderHolds(ys[k], leader, i);
  }

  lemma CommittedAgree(h: History, end: nat, n: nat, a: Log, other: nat, m: nat, b: Log)
    requires Coherent(h) && Committed(h, end, n, a) && Committed(h, other, m, b) && n <= |a| && m <= |b| && n <= m
    ensures Same(a, b, n)
  {
    if n > 0 {
      var t: nat, x: nat :| Certified(h, t, x) && t <= end && n <= x && Same(a, h.logs[t], n);
      var u: nat, z: nat :| Certified(h, u, z) && u <= other && m <= z && Same(b, h.logs[u], m);
      SamePrefix(b, h.logs[u], m, n);
      if t < u {
        LeaderComplete(h, t, x, u);
        SamePrefix(h.logs[u], h.logs[t], x, n);
      } else if u < t {
        LeaderComplete(h, u, z, t);
        SamePrefix(h.logs[t], h.logs[u], z, n);
      }
    }
  }

  lemma OpsSame(a: Log, b: Log, n: nat, m: nat)
    requires Same(a, b, n) && n <= m <= |b|
    ensures Ops(a[..n]) <= Ops(b[..m])
  {
    forall i | 0 <= i < n ensures a[i] == b[i] {
      SameAt(a, b, n, i);
    }
  }

  predicate Agree(a: seq<Op>, b: seq<Op>) {
    a <= b || b <= a
  }

  lemma AgreeIn(y: System, i: nat, j: nat)
    requires Inv(y) && i < |y.replicas| && j < |y.replicas|
    ensures Agree(y.replicas[i].applied, y.replicas[j].applied)
  {
    hide Inv, ReplicaOk, Coherent, Committed, Ops, Same;
    var r, q := y.replicas[i], y.replicas[j];
    CoherentOf(y);
    OkAt(y, i);
    OkAt(y, j);
    PastOf(y.history, r, i);
    PastOf(y.history, q, j);
    if r.commit <= q.commit {
      CommittedAgree(y.history, r.term, r.commit, r.log, q.term, q.commit, q.log);
      OpsSame(r.log, q.log, r.commit, q.commit);
    } else {
      CommittedAgree(y.history, q.term, q.commit, q.log, r.term, r.commit, r.log);
      OpsSame(q.log, r.log, q.commit, r.commit);
    }
  }

  /** No two replicas ever apply different entries at one place: of what any two have applied, one is the
      beginning of the other. */
  lemma AppliedAgree(ys: seq<System>, steps: seq<Step>, k: nat, i: nat, j: nat)
    requires Runs(ys, steps) && k < |ys| && i < |ys[k].replicas| && j < |ys[k].replicas|
    ensures Agree(ys[k].replicas[i].applied, ys[k].replicas[j].applied)
  {
    hide Runs, Inv;
    RunInv(ys, steps, k);
    AgreeIn(ys[k], i, j);
  }

  // ---------------------------------------------------------------------------------------------
  // Over the whole of a run

  /** Nothing applied is taken back. */
  predicate Keeps(y: System, z: System) {
    |z.replicas| == |y.replicas|
    && forall j :: 0 <= j < |y.replicas| ==> y.replicas[j].applied <= z.replicas[j].applied
  }

  lemma HandleKeeps(y: System, i: nat, peer: nat, m: Message)
    requires i < |y.replicas|
    ensures Keeps(y, Handle(y, i, peer, m))
  {
    match m
    case Append(term, prev, prevTerm, copied, commit) => AppendKeeps(y, i, peer, term, prev, prevTerm, copied, commit);
    case Appended(term, matched) => AppendedKeeps(y, i, peer, term, matched);
    case _ =>
  }

  lemma AppendKeeps(y: System, i: nat, peer: nat, term: nat, prev: nat, prevTerm: nat, copied: Log, commit: nat)
    requires i < |y.replicas|
    ensures Keeps(y, OnAppend(y, i, peer, term, prev, prevTerm, copied, commit))
  {
    hide Take, Ops;
  }

  lemma AppendedKeeps(y: System, i: nat, peer: nat, term: nat, matched: Option<nat>)
    requires i < |y.replicas|
    ensures Keeps(y, OnAppended(y, i, peer, term, matched))
  {
    hide Ops, Reached, CopyFor;
  }

  lemma StepKeeps(y: System, step: Step)
    requires Enabled(y, step)
    ensures Keeps(y, Next(y, step))
  {
    hide Handle;
    match step
    case Timer(i) =>
    case Deliver(p) =>
      var term := TermOf(p.message);
      HandleKeeps(if term.Some? && term.value > y.replicas[p.dest].term then Adopt(y, p.dest, term.value) else y,
                  p.dest, p.sender, p.message);
    case Client(i, command) => HandleKeeps(y, i, REPLICAS, Submit(command));
  }

  lemma {:induction false} RunKeeps(ys: seq<System>, steps: seq<Step>, k: nat, m: nat)
    requires Runs(ys, steps) && k <= m < |ys|
    ensures Keeps(ys[k], ys[m])
  {
    hide Next, Enabled;
    if k < m {
      RunKeeps(ys, steps, k, m - 1);
      StepKeeps(ys[m - 1], steps[m - 1]);
    }
  }

  /** Whatever one replica has applied at one moment, and another at any other, the one is the beginning of
      the other: a committed entry never changes, and is never applied otherwise anywhere. */
  lemma AppliedForGood(ys: seq<System>, steps: seq<Step>, k: nat, m: nat, i: nat, j: nat)
    requires Runs(ys, steps) && k <= m < |ys| && i < |ys[k].replicas| && j < |ys[m].replicas|
    ensures Agree(ys[k].replicas[i].applied, ys[m].replicas[j].applied)
  {
    hide Runs;
    RunKeeps(ys, steps, k, m);
    AppliedAgree(ys, steps, m, i, j);
  }

  // ---------------------------------------------------------------------------------------------
  // Each command at most once

  predicate Once(log: Log) {
    forall i, j :: 0 <= i < j < |log| && log[i].op.Command? ==> log[i].op != log[j].op
  }

  ghost predicate AllOnce(h: History) {
    forall t :: t in h.logs ==> Once(h.logs[t])
  }

  lemma OnceFrom(h: History, log: Log)
    requires AllOnce(h) && FromLeaders(h.logs, log)
    ensures Once(log)
  {
    if log != [] {
      LastsLeader(h.logs, log);
      var full := h.logs[log[|log| - 1].term];
      forall i | 0 <= i < |log| ensures log[i] == full[i] {
        SameAt(log, full, |log|, i);
      }
    }
  }

  lemma ReplicaOnce(y: System, i: nat)
    requires Inv(y) && AllOnce(y.history) && i < |y.replicas|
    ensures Once(y.replicas[i].log)
  {
    hide Inv, FromLeaders, ReplicaOk, Once, AllOnce;
    OkAt(y, i);
    PastOf(y.history, y.replicas[i], i);
    OnceFrom(y.history, y.replicas[i].log);
  }

  lemma OnceMore(log: Log, entry: Entry)
    requires Once(log) && (entry.op.Command? ==> !Has(log, entry.op.command))
    ensures Once(log + [entry])
  {
    forall i | 0 <= i < |log| && log[i].op.Command? ensures log[i].op != entry.op {
      assert entry.op.Command? ==> log[i].op != Command(entry.op.command);
    }
  }

  /** A leader takes no command its log already holds, and a log is always some leader's. */
  lemma HandleOnce(y: System, i: nat, peer: nat, m: Message)
    requires Inv(y) && AllOnce(y.history) && i < |y.replicas|
    ensures AllOnce(Handle(y, i, peer, m).history)
  {
    hide Inv, Once, Take, Ops, CopyFor, Reached;
    var r := y.replicas[i];
    ReplicaOnce(y, i);
    match m
    case Vote(_, _) => OnceMore(r.log, Entry(r.term, Noop));
    case Submit(command) =>
      if !Has(r.log, command) { OnceMore(r.log, Entry(r.term, Command(command))); }
    case _ =>
  }

  lemma StepOnce(y: System, step: Step)
    requires Inv(y) && AllOnce(y.history) && Enabled(y, step)
    ensures AllOnce(Next(y, step).history)
  {
    hide Inv, Handle, AllOnce, CopyFor;
    match step
    case Timer(i) =>
    case Deliver(p) =>
      var term := TermOf(p.message);
      if term.Some? && term.value > y.replicas[p.dest].term {
        AdoptInv(y, p.dest, term.value);
        HandleOnce(Adopt(y, p.dest, term.value), p.dest, p.sender, p.message);
      } else {
        HandleOnce(y, p.dest, p.sender, p.message);
      }
    case Client(i, command) => HandleOnce(y, i, REPLICAS, Submit(command));
  }

  lemma {:induction false} RunOnce(ys: seq<System>, steps: seq<Step>, k: nat)
    requires Runs(ys, steps) && k < |ys|
    ensures AllOnce(ys[k].history)
  {
    if k > 0 {
      RunOnce(ys, steps, k - 1);
      RunInv(ys, steps, k - 1);
      hide Inv, Next, AllOnce;
      StepOnce(ys[k - 1], steps[k - 1]);
    }
  }

  /** No replica applies a command twice, however often a client sends it. */
  lemma AppliedOnce(ys: seq<System>, steps: seq<Step>, k: nat, i: nat, a: nat, b: nat)
    requires Runs(ys, steps) && k < |ys| && i < |ys[k].replicas| && a < b < |ys[k].replicas[i].applied|
    requires ys[k].replicas[i].applied[a].Command?
    ensures ys[k].replicas[i].applied[a] != ys[k].replicas[i].applied[b]
  {
    hide Runs, Inv, ReplicaOk, AllOnce;
    RunInv(ys, steps, k);
    RunOnce(ys, steps, k);
    ReplicaOnce(ys[k], i);
    OkAt(ys[k], i);
    PastOf(ys[k].history, ys[k].replicas[i], i);
  }
}
