/** The replicated log goes on: whatever has happened, whichever replicas are cut off, any majority of the rest can
    elect a leader, commit a client's command and have every one of them apply it, by talking to each other alone. */
module ReplogProgress {
  import opened Replog
  import opened ReplogInv
  import opened ReplogRules
  import opened ReplogRuns
  import opened ReplogSafe
  import opened ReplogSafety
  import opened ReplogSteps
  import opened Wrappers

  // ---------------------------------------------------------------------------------------------
  // Runs in which only some replicas take part

  /** A step by one of `among`, on its own or on hearing from another of them. */
  predicate Among(among: set<nat>, step: Step) {
    match step
    case Timer(i) => i in among
    case Deliver(p) => p.dest in among && p.sender in among
    case Client(i, _) => i in among
  }

  ghost predicate Path(ys: seq<System>, steps: seq<Step>, among: set<nat>) {
    && |ys| == |steps| + 1
    && forall k :: 0 <= k < |steps| ==> Enabled(ys[k], steps[k]) && ys[k + 1] == Next(ys[k], steps[k]) && Among(among, steps[k])
  }

  /** A run of theirs leads from one system to another. */
  ghost predicate Reach(y: System, z: System, among: set<nat>) {
    exists ys, steps :: Path(ys, steps, among) && ys[0] == y && ys[|steps|] == z
  }

  lemma Stay(y: System, among: set<nat>)
    ensures Reach(y, y, among)
  {
    assert Path([y], [], among);
  }

  lemma OneStep(y: System, step: Step, among: set<nat>)
    requires Enabled(y, step) && Among(among, step)
    ensures Reach(y, Next(y, step), among)
  {
    hide Next, Enabled;
    assert Path([y, Next(y, step)], [step], among);
  }

  lemma Onward(x: System, y: System, z: System, among: set<nat>)
    requires Reach(x, y, among) && Reach(y, z, among)
    ensures Reach(x, z, among)
  {
    hide Next, Enabled, Among;
    var xs, front :| Path(xs, front, among) && xs[0] == x && xs[|front|] == y;
    var ys, back :| Path(ys, back, among) && ys[0] == y && ys[|back|] == z;
    Join(xs, front, ys, back, among);
  }

  lemma Join(xs: seq<System>, front: seq<Step>, ys: seq<System>, back: seq<Step>, among: set<nat>)
    requires Path(xs, front, among) && Path(ys, back, among) && xs[|front|] == ys[0]
    ensures Path(xs + ys[1..], front + back, among)
    ensures (xs + ys[1..])[0] == xs[0] && (xs + ys[1..])[|front + back|] == ys[|back|]
  {
    hide Next, Enabled, Among;
    var all, steps := xs + ys[1..], front + back;
    forall k | 0 <= k < |steps| ensures Enabled(all[k], steps[k]) && all[k + 1] == Next(all[k], steps[k]) && Among(among, steps[k]) {
      if k < |front| {
        assert all[k] == xs[k] && all[k + 1] == xs[k + 1];
      } else {
        assert all[k] == ys[k - |front|] && all[k + 1] == ys[k - |front| + 1];
      }
    }
  }

  // ---------------------------------------------------------------------------------------------
  // What else every run keeps

  /** A leader counts itself among those that hold its whole log, and its log ends in its own term. */
  predicate SelfOk(r: Replica, i: nat) {
    r.role == Leader ==> i < |r.matched| && r.matched[i] >= |r.log| && |r.log| > 0 && LastTerm(r.log) == r.term
  }

  ghost predicate AllSelf(y: System) {
    forall i :: 0 <= i < |y.replicas| ==> SelfOk(y.replicas[i], i)
  }

  lemma HandleSelf(y: System, i: nat, peer: nat, m: Message)
    requires AllSelf(y) && i < |y.replicas| == REPLICAS
    ensures AllSelf(Handle(y, i, peer, m))
  {
    hide Take, Ops, CopyFor, Reached, NotBehind;
    assert SelfOk(y.replicas[i], i);
  }

  lemma StepSelf(y: System, step: Step)
    requires AllSelf(y) && Enabled(y, step) && |y.replicas| == REPLICAS
    ensures AllSelf(Next(y, step))
  {
    hide Handle, CopyFor;
    match step
    case Timer(i) =>
      assert SelfOk(y.replicas[i], i);
    case Deliver(p) =>
      assert SelfOk(y.replicas[p.dest], p.dest);
      var term := TermOf(p.message);
      HandleSelf(if term.Some? && term.value > y.replicas[p.dest].term then Adopt(y, p.dest, term.value) else y,
                 p.dest, p.sender, p.message);
    case Client(i, command) => HandleSelf(y, i, REPLICAS, Submit(command));
  }

  /** What is so of every system a run comes to. */
  ghost predicate Kept(y: System) {
    Inv(y) && AllSelf(y) && |y.replicas| == REPLICAS
  }

  lemma StepKept(y: System, step: Step)
    requires Kept(y) && Enabled(y, step)
    ensures Kept(Next(y, step))
  {
    hide Inv, AllSelf, Next, Enabled;
    StepInv(y, step);
    StepSelf(y, step);
    StepKeeps(y, step);
  }

  lemma {:induction false} PathKept(ys: seq<System>, steps: seq<Step>, among: set<nat>, k: nat)
    requires Path(ys, steps, among) && Kept(ys[0]) && k < |ys|
    ensures Kept(ys[k])
  {
    hide Kept, Next, Enabled;
    if k > 0 {
      PathKept(ys, steps, among, k - 1);
      StepKept(ys[k - 1], steps[k - 1]);
    }
  }

  lemma ReachKept(y: System, z: System, among: set<nat>)
    requires Reach(y, z, among) && Kept(y)
    ensures Kept(z)
  {
    hide Kept, Next, Enabled;
    var ys, steps :| Path(ys, steps, among) && ys[0] == y && ys[|steps|] == z;
    PathKept(ys, steps, among, |steps|);
  }

  lemma {:induction false} RunKept(ys: seq<System>, steps: seq<Step>, k: nat)
    requires Runs(ys, steps) && k < |ys|
    ensures Kept(ys[k])
  {
    hide Inv, Next, Enabled;
    if k == 0 {
      StartInv();
      StartKept();
    } else {
      RunKept(ys, steps, k - 1);
      hide Kept;
      StepKept(ys[k - 1], steps[k - 1]);
    }
  }

  lemma StartKept()
    ensures AllSelf(Start()) && |Start().replicas| == REPLICAS
  {}

  // ---------------------------------------------------------------------------------------------
  // Everyone comes to the latest term

  /** `z` is `y` with replica `i` changed to `q`, and at least what was on the wire still on it. */
  predicate Changes(y: System, z: System, i: nat, q: Replica) {
    i < |y.replicas| && z.replicas == y.replicas[i := q] && y.sent <= z.sent
  }

  /** A message is heard by the one it is for, in the term it carries if that is later. */
  lemma Hear(y: System, p: Packet, among: set<nat>)
    requires p in y.sent && p.dest < |y.replicas| && p.dest in among && p.sender in among
    ensures var t := TermOf(p.message);
            var z := if t.Some? && t.value > y.replicas[p.dest].term then Adopt(y, p.dest, t.value) else y;
            Reach(y, Handle(z, p.dest, p.sender, p.message), among)
  {
    hide Reach, Handle, Adopt;
    OneStep(y, Step.Deliver(p), among);
  }

  lemma AsksAround(y: System, q: nat, among: set<nat>)
    requires q < |y.replicas| && q in among
    ensures Reach(y, OnTimer(y, q), among)
  {
    hide Reach, OnTimer;
    OneStep(y, Step.Timer(q), among);
  }

  /** A replica behind another's term asks it something, and is told of the term. */
  lemma TakesUp(y: System, m: nat, q: nat, among: set<nat>) returns (z: System)
    requires |y.replicas| == REPLICAS && m < REPLICAS && q < REPLICAS && m in among && q in among
    requires y.replicas[q].term < y.replicas[m].term
    ensures Reach(y, z, among) && q < |z.replicas| && Changes(y, z, q, z.replicas[q])
    ensures var r, now := y.replicas[q], z.replicas[q];
            now.term == y.replicas[m].term && now.role == Follower && now.log == r.log
  {
    if y.replicas[q].role == Leader {
      z := LeaderTold(y, m, q, among);
    } else {
      z := AskerTold(y, m, q, among);
    }
  }

  lemma AskerTold(y: System, m: nat, q: nat, among: set<nat>) returns (z: System)
    requires |y.replicas| == REPLICAS && m < REPLICAS && q < REPLICAS && m in among && q in among
    requires y.replicas[q].term < y.replicas[m].term && y.replicas[q].role != Leader
    ensures Reach(y, z, among) && q < |z.replicas| && Changes(y, z, q, z.replicas[q])
    ensures var r, now := y.replicas[q], z.replicas[q];
            now.term == y.replicas[m].term && now.role == Follower && now.log == r.log
  {
    hide Reach, OnTimer, OnPreVote, OnPreVoted, Adopt, UpToDate;
    var r, late := y.replicas[q], y.replicas[m];
    AsksAround(y, q, among);
    TimerAsks(y, q);
    var a := OnTimer(y, q);
    var end := LogEnd(LastTerm(r.log), |r.log|);
    OthersHear(q, PreVote(r.term + 1, end), Packet(q, m, PreVote(r.term + 1, end)));
    Hear(a, Packet(q, m, PreVote(r.term + 1, end)), among);
    CouldStandIff(a, m, q, r.term + 1, end);
    var b := OnPreVote(a, m, q, r.term + 1, end);
    var granted := r.term + 1 > late.term && UpToDate(end.term, end.index, late.log) && late.leader.None?;
    var told := Packet(m, q, PreVoted(late.term, r.term + 1, granted));
    Hear(b, told, among);
    LaterTermTakenUp(b, q, late.term);
    StandsWhenMostSay(Adopt(b, q, late.term), q, m, r.term + 1, granted);
    z := Adopt(b, q, late.term);
    Onward(y, a, b, among);
    Onward(y, b, z, among);
  }

  lemma LeaderTold(y: System, m: nat, q: nat, among: set<nat>) returns (z: System)
    requires |y.replicas| == REPLICAS && m < REPLICAS && q < REPLICAS && m in among && q in among
    requires y.replicas[q].term < y.replicas[m].term && y.replicas[q].role == Leader
    ensures Reach(y, z, among) && q < |z.replicas| && Changes(y, z, q, z.replicas[q])
    ensures var r, now := y.replicas[q], z.replicas[q];
            now.term == y.replicas[m].term && now.role == Follower && now.log == r.log
  {
    hide Reach, OnTimer, OnAppend, OnAppended, Adopt, CommitsFurthest;
    var r, late := y.replicas[q], y.replicas[m];
    AsksAround(y, q, among);
    TimerAsks(y, q);
    var a := OnTimer(y, q);
    var copy := Packet(q, m, CopyFor(r, m));
    assert copy in a.sent;
    Hear(a, copy, among);
    var c := copy.message;
    AppendAnswers(a, m, q, c.term, c.prevIndex, c.prevTerm, c.entries, c.commit);
    var b := OnAppend(a, m, q, c.term, c.prevIndex, c.prevTerm, c.entries, c.commit);
    var told := Packet(m, q, Appended(late.term, None));
    Hear(b, told, among);
    LaterTermTakenUp(b, q, late.term);
    AnswerCommits(Adopt(b, q, late.term), q, m, late.term, None);
    z := Adopt(b, q, late.term);
    Onward(y, a, b, among);
    Onward(y, b, z, among);
  }

  /** Those of `among` in an earlier term than `m`. */
  function Behind(y: System, m: nat, among: set<nat>): set<nat> {
    set q | q in among && q < |y.replicas| && m < |y.replicas| && y.replicas[q].term < y.replicas[m].term
  }

  /** Only those of `among` have changed, and nobody's log has. */
  ghost predicate SameLogs(y: System, z: System, among: set<nat>) {
    && |z.replicas| == |y.replicas| && y.sent <= z.sent
    && (forall q :: 0 <= q < |y.replicas| ==> z.replicas[q].log == y.replicas[q].log)
  }

  lemma {:induction false} AllTakeUp(y: System, m: nat, among: set<nat>) returns (z: System)
    requires |y.replicas| == REPLICAS && m < REPLICAS && m in among
    requires forall q :: q in among ==> q < REPLICAS && y.replicas[q].term <= y.replicas[m].term
    ensures Reach(y, z, among) && SameLogs(y, z, among) && z.replicas[m] == y.replicas[m]
    ensures forall q :: q in among ==> z.replicas[q].term == y.replicas[m].term
    ensures forall q :: q in among ==> z.replicas[q] == y.replicas[q] || z.replicas[q].role == Follower
    decreases |Behind(y, m, among)|
  {
    hide Reach;
    if Behind(y, m, among) == {} {
      Stay(y, among);
      z := y;
      forall q | q in among ensures z.replicas[q].term == y.replicas[m].term {
        assert q !in Behind(y, m, among);
      }
    } else {
      var q :| q in Behind(y, m, among);
      var a := TakesUp(y, m, q, among);
      assert Behind(a, m, among) == Behind(y, m, among) - {q};
      z := AllTakeUp(a, m, among);
      Onward(y, a, z, among);
    }
  }

  // ---------------------------------------------------------------------------------------------
  // One of them is elected

  /** What a replica asks everyone as its timer runs out. */
  function Asking(r: Replica): Message {
    PreVote(r.term + 1, LogEnd(LastTerm(r.log), |r.log|))
  }

  /** A replica that follows nobody and is asking whether it could stand. */
  predicate Quiet(r: Replica, i: nat) {
    r.role != Leader && r.leader.None? && r.prevotes == {i}
  }

  /** Everyone's timer runs out. */
  lemma {:induction false} AllQuiet(y: System, among: set<nat>, todo: set<nat>) returns (z: System)
    requires |y.replicas| == REPLICAS && todo <= among && forall q :: q in among ==> q < REPLICAS
    requires forall q :: q in among ==> y.replicas[q].role != Leader
    ensures Reach(y, z, among) && SameLogs(y, z, among)
    ensures forall q :: q in among ==> z.replicas[q].term == y.replicas[q].term && z.replicas[q].role != Leader
    ensures forall q :: q in todo ==> Quiet(z.replicas[q], q) && ToOthers(q, Asking(z.replicas[q])) <= z.sent
    ensures forall q :: q in among && q !in todo ==> z.replicas[q] == y.replicas[q]
    decreases |todo|
  {
    hide Reach, OnTimer, ToOthers;
    if todo == {} {
      Stay(y, among);
      z := y;
    } else {
      var q :| q in todo;
      AsksAround(y, q, among);
      TimerAsks(y, q);
      var a := OnTimer(y, q);
      z := AllQuiet(a, among, todo - {q});
      Onward(y, a, z, among);
      assert z.replicas[q] == a.replicas[q];
    }
  }

  /** Whether the log of `c` is up to date with that of `q`. */
  predicate NoFurther(y: System, c: nat, q: nat)
    requires c < |y.replicas| && q < |y.replicas|
  {
    UpToDate(LastTerm(y.replicas[c].log), |y.replicas[c].log|, y.replicas[q].log)
  }

  /** Some replica's log is up to date with all of theirs. */
  lemma {:induction false} SomeoneFurthest(y: System, some: set<nat>) returns (c: nat)
    requires some != {} && forall q :: q in some ==> q < |y.replicas|
    ensures c in some && forall q :: q in some ==> NoFurther(y, c, q)
  {
    c :| c in some;
    if some != {c} {
      var best := SomeoneFurthest(y, some - {c});
      assert some == some - {c} + {c};
      if NoFurther(y, best, c) { c := best; }
    }
  }

  /** A voter that follows nobody says a replica that is not behind it could stand. */
  lemma SaysSo(y: System, c: nat, v: nat, among: set<nat>) returns (z: System)
    requires |y.replicas| == REPLICAS && c < REPLICAS && v < REPLICAS && c != v && c in among && v in among
    requires y.replicas[v].term == y.replicas[c].term && y.replicas[v].leader.None? && NoFurther(y, c, v)
    requires ToOthers(c, Asking(y.replicas[c])) <= y.sent
    ensures Reach(y, z, among) && z.replicas == y.replicas && y.sent <= z.sent
    ensures Packet(v, c, PreVoted(y.replicas[c].term, y.replicas[c].term + 1, true)) in z.sent
  {
    hide Reach, OnPreVote, ToOthers, UpToDate;
    var r := y.replicas[c];
    OthersHear(c, Asking(r), Packet(c, v, Asking(r)));
    Hear(y, Packet(c, v, Asking(r)), among);
    CouldStandIff(y, v, c, r.term + 1, LogEnd(LastTerm(r.log), |r.log|));
    z := OnPreVote(y, v, c, r.term + 1, LogEnd(LastTerm(r.log), |r.log|));
  }

  /** One more replica's word is counted. */
  lemma Counts(y: System, c: nat, v: nat, among: set<nat>) returns (z: System)
    requires |y.replicas| == REPLICAS && c < REPLICAS && v < REPLICAS && c in among && v in among
    requires c in y.replicas[c].prevotes
    requires Packet(v, c, PreVoted(y.replicas[c].term, y.replicas[c].term + 1, true)) in y.sent
    ensures Reach(y, z, among)
    ensures var r := y.replicas[c];
            if !MostOf(r.prevotes + {v}) then Changes(y, z, c, r.(prevotes := r.prevotes + {v}))
            else
              && Changes(y, z, c, r.(term := r.term + 1, role := Candidate, votedFor := Some(c), leader := None, votes := {c}, prevotes := {}))
              && ToOthers(c, RequestVote(r.term + 1, LogEnd(LastTerm(r.log), |r.log|))) <= z.sent
  {
    hide Reach, OnPreVoted, ToOthers, MostOf;
    var r := y.replicas[c];
    Hear(y, Packet(v, c, PreVoted(r.term, r.term + 1, true)), among);
    StandsWhenMostSay(y, c, v, r.term + 1, true);
    z := OnPreVoted(y, c, v, r.term + 1, true);
  }

  /** A voter in the term before takes the new one up, and gives its vote. */
  lemma GivesVote(y: System, c: nat, v: nat, among: set<nat>) returns (z: System)
    requires |y.replicas| == REPLICAS && c < REPLICAS && v < REPLICAS && c != v && c in among && v in among
    requires y.replicas[v].term < y.replicas[c].term && NoFurther(y, c, v)
    requires ToOthers(c, RequestVote(y.replicas[c].term, LogEnd(LastTerm(y.replicas[c].log), |y.replicas[c].log|))) <= y.sent
    ensures Reach(y, z, among) && v < |z.replicas| && Changes(y, z, v, z.replicas[v])
    ensures z.replicas[v].term == y.replicas[c].term && z.replicas[v].role == Follower && z.replicas[v].log == y.replicas[v].log
    ensures Packet(v, c, Vote(y.replicas[c].term, true)) in z.sent
  {
    hide Reach, OnRequestVote, ToOthers, UpToDate, Adopt;
    var r := y.replicas[c];
    var m := RequestVote(r.term, LogEnd(LastTerm(r.log), |r.log|));
    OthersHear(c, m, Packet(c, v, m));
    Hear(y, Packet(c, v, m), among);
    LaterTermTakenUp(y, v, r.term);
    VotesIff(Adopt(y, v, r.term), v, c, r.term, m.end);
    z := OnRequestVote(Adopt(y, v, r.term), v, c, r.term, m.end);
  }

  lemma TakesVote(y: System, c: nat, v: nat, among: set<nat>) returns (z: System)
    requires |y.replicas| == REPLICAS && c < REPLICAS && v < REPLICAS && c in among && v in among
    requires y.replicas[c].role == Candidate && Packet(v, c, Vote(y.replicas[c].term, true)) in y.sent
    ensures Reach(y, z, among)
    ensures var r := y.replicas[c];
            if !MostOf(r.votes + {v}) then Changes(y, z, c, r.(votes := r.votes + {v}))
            else c < |z.replicas| && Changes(y, z, c, z.replicas[c]) && Leads(r, z.replicas[c], c)
  {
    hide Reach, OnVote, MostOf, Leads;
    var r := y.replicas[c];
    Hear(y, Packet(v, c, Vote(r.term, true)), among);
    LeadsWhenMostVote(y, c, v, r.term, true);
    z := OnVote(y, c, v, r.term, true);
  }

  /** With two others that follow nobody and are not ahead of it, a replica stands. */
  lemma Stands(y: System, c: nat, v: nat, w: nat, among: set<nat>) returns (z: System)
    requires |y.replicas| == REPLICAS && {c, v, w} <= among && c < REPLICAS && v < REPLICAS && w < REPLICAS
    requires c != v && v != w && w != c
    requires Quiet(y.replicas[c], c) && Quiet(y.replicas[v], v) && Quiet(y.replicas[w], w)
    requires y.replicas[v].term == y.replicas[c].term == y.replicas[w].term && NoFurther(y, c, v) && NoFurther(y, c, w)
    requires ToOthers(c, Asking(y.replicas[c])) <= y.sent
    ensures Reach(y, z, among) && y.sent <= z.sent
    ensures var r := y.replicas[c];
            && Changes(y, z, c, r.(term := r.term + 1, role := Candidate, votedFor := Some(c), leader := None, votes := {c}, prevotes := {}))
            && ToOthers(c, RequestVote(r.term + 1, LogEnd(LastTerm(r.log), |r.log|))) <= z.sent
  {
    hide Reach, ToOthers, UpToDate;
    var a := SaysSo(y, c, v, among);
    var b := SaysSo(a, c, w, among);
    var d := Counts(b, c, v, among);
    assert |{c, v}| == 2 && |{c, v, w}| == 3 && {c} + {v} == {c, v} && {c, v} + {w} == {c, v, w};
    z := Counts(d, c, w, among);
    Onward(y, a, b, among);
    Onward(y, b, d, among);
    Onward(y, d, z, among);
  }

  /** And with their votes it leads. */
  lemma Wins(y: System, c: nat, v: nat, w: nat, among: set<nat>) returns (z: System)
    requires |y.replicas| == REPLICAS && {c, v, w} <= among && c < REPLICAS && v < REPLICAS && w < REPLICAS
    requires c != v && v != w && w != c && y.replicas[c].role == Candidate && y.replicas[c].votes == {c}
    requires y.replicas[v].term < y.replicas[c].term && y.replicas[w].term < y.replicas[c].term
    requires NoFurther(y, c, v) && NoFurther(y, c, w)
    requires ToOthers(c, RequestVote(y.replicas[c].term, LogEnd(LastTerm(y.replicas[c].log), |y.replicas[c].log|))) <= y.sent
    ensures Reach(y, z, among) && |z.replicas| == REPLICAS && z.replicas[c].role == Leader
    ensures z.replicas[c].term == z.replicas[v].term == z.replicas[w].term == y.replicas[c].term
    ensures z.replicas[v].role == z.replicas[w].role == Follower
    ensures forall q :: 0 <= q < REPLICAS && q !in {c, v, w} ==> z.replicas[q] == y.replicas[q]
  {
    hide Reach, ToOthers, UpToDate;
    var a := GivesVote(y, c, v, among);
    var b := GivesVote(a, c, w, among);
    var d := TakesVote(b, c, v, among);
    assert |{c, v}| == 2 && |{c, v, w}| == 3 && {c} + {v} == {c, v} && {c, v} + {w} == {c, v, w};
    z := TakesVote(d, c, w, among);
    Onward(y, a, b, among);
    Onward(y, b, d, among);
    Onward(y, d, z, among);
  }

  lemma TwoOthers(among: set<nat>, c: nat) returns (v: nat, w: nat)
    requires c in among && MostOf(among)
    ensures v in among && w in among && v != c && w != c && v != w
  {
    var others := among - {c};
    assert among == others + {c};
    v :| v in others;
    assert others == others - {v} + {v};
    w :| w in others - {v};
  }

  /** Whoever leads among them does so in the latest term any of them is in; and nobody else is in a later one. */
  ghost predicate Led(y: System, l: nat, among: set<nat>) {
    && l in among && l < |y.replicas| && y.replicas[l].role == Leader
    && forall q :: q in among ==> q < |y.replicas| && y.replicas[q].term <= y.replicas[l].term
                                  && (q != l ==> y.replicas[q].role != Leader)
  }

  /** A majority comes to have a leader, whoever led before and whatever term any of them is in. */
  lemma ComesToBeLed(y: System, among: set<nat>) returns (z: System, l: nat)
    requires Kept(y) && MostOf(among) && forall q :: q in among ==> q < REPLICAS
    ensures Reach(y, z, among) && Kept(z) && Led(z, l, among)
  {
    hide Reach, Kept;
    ManyReplicas(y);
    var m := SomeoneLatest(y, among);
    var a := AllTakeUp(y, m, among);
    ReachKept(y, a, among);
    if exists q :: q in among && a.replicas[q].role == Leader {
      l :| l in among && a.replicas[l].role == Leader;
      z := a;
      forall q | q in among && q != l ensures z.replicas[q].role != Leader {
        if z.replicas[q].role == Leader { OneLeads(z, l, q); }
      }
    } else {
      z, l := Elects(a, m, among);
      Onward(y, a, z, among);
      ReachKept(y, z, among);
    }
  }

  lemma ManyReplicas(y: System)
    requires Kept(y)
    ensures |y.replicas| == REPLICAS
  {}

  /** No two lead one term. */
  lemma OneLeads(y: System, i: nat, j: nat)
    requires Kept(y) && i < REPLICAS && j < REPLICAS && |y.replicas| == REPLICAS
    requires y.replicas[i].role == y.replicas[j].role == Leader && y.replicas[i].term == y.replicas[j].term
    ensures i == j
  {
    hide AllSelf;
    OkAt(y, i);
    OkAt(y, j);
  }

  lemma {:induction false} SomeoneLatest(y: System, some: set<nat>) returns (m: nat)
    requires some != {}
    requires forall q :: q in some ==> q < |y.replicas|
    ensures m in some && forall q :: q in some ==> y.replicas[q].term <= y.replicas[m].term
  {
    m :| m in some;
    if some != {m} {
      var best := SomeoneLatest(y, some - {m});
      assert some == some - {m} + {m};
      if y.replicas[best].term > y.replicas[m].term { m := best; }
    }
  }

  lemma Elects(y: System, m: nat, among: set<nat>) returns (z: System, l: nat)
    requires |y.replicas| == REPLICAS && MostOf(among) && m in among && forall q :: q in among ==> q < REPLICAS
    requires forall q :: q in among ==> y.replicas[q].role != Leader && y.replicas[q].term == y.replicas[m].term
    ensures Reach(y, z, among) && Led(z, l, among)
  {
    hide Reach, ToOthers, UpToDate;
    var a := AllQuiet(y, among, among);
    l := SomeoneFurthest(a, among);
    var v, w := TwoOthers(among, l);
    var b := Stands(a, l, v, w, among);
    z := Wins(b, l, v, w, among);
    Onward(y, a, b, among);
    Onward(y, b, z, among);
  }

  // ---------------------------------------------------------------------------------------------
  // What the leader holds comes to be held, committed and applied by all of them

  /** The leader holds what it held, in the term it led, and has committed and been told no less. */
  predicate StillLeads(r: Replica, q: Replica) {
    && q.role == Leader && q.term == r.term && q.log == r.log && q.commit >= r.commit
    && |q.matched| == |r.matched| && |q.next| == |r.next|
    && forall f :: 0 <= f < |r.matched| ==> q.matched[f] >= r.matched[f]
  }

  /** A leader all of whose log most replicas hold has committed it. */
  predicate CommitsAll(r: Replica) {
    MostOf(set f | 0 <= f < |r.matched| && r.matched[f] >= |r.log|) ==> r.commit >= |r.log|
  }

  /** Only the leader and one follower have changed: the leader leads on, and the follower is in its term. */
  predicate Exchange(y: System, z: System, l: nat, f: nat)
    requires l < |y.replicas| && f < |y.replicas|
  {
    && |z.replicas| == |y.replicas| && StillLeads(y.replicas[l], z.replicas[l])
    && (forall q :: 0 <= q < |y.replicas| && q != l && q != f ==> z.replicas[q] == y.replicas[q])
    && z.replicas[f].term == y.replicas[l].term && z.replicas[f].role != Leader
    && z.replicas[f].commit >= y.replicas[f].commit
  }

  lemma ExchangeTwice(x: System, y: System, z: System, l: nat, f: nat)
    requires l < |x.replicas| && f < |x.replicas| && Exchange(x, y, l, f) && Exchange(y, z, l, f)
    ensures Exchange(x, z, l, f)
  {}

  /** Where a leader's next copy to a follower begins, and what it carries. */
  function PrevOf(r: Replica, f: nat): nat
    requires f < |r.next|
  {
    if r.next[f] >= 1 then r.next[f] - 1 else 0
  }

  function TermBefore(r: Replica, prev: nat): nat
    requires prev <= |r.log|
  {
    if prev == 0 then 0 else r.log[prev - 1].term
  }

  lemma CopyIs(r: Replica, f: nat)
    requires f < |r.next| && r.next[f] <= |r.log| + 1
    ensures var prev := PrevOf(r, f);
            CopyFor(r, f) == Append(r.term, prev, TermBefore(r, prev), r.log[prev..], r.commit)
  {}

  /** A leader's timer has it copy its log. */
  lemma CopyLeaves(y: System, l: nat, f: nat, among: set<nat>) returns (z: System)
    requires l in among && l != f && l < REPLICAS && f < REPLICAS && |y.replicas| == REPLICAS
    requires y.replicas[l].role == Leader && f < |y.replicas[l].next| && y.replicas[l].next[f] <= |y.replicas[l].log| + 1
    ensures Reach(y, z, among) && z.replicas == y.replicas && y.sent <= z.sent
    ensures var r := y.replicas[l];
            var prev := PrevOf(r, f);
            Packet(l, f, Append(r.term, prev, TermBefore(r, prev), r.log[prev..], r.commit)) in z.sent
  {
    hide Reach, OnTimer, CopyFor, PrevOf, TermBefore;
    var r := y.replicas[l];
    AsksAround(y, l, among);
    TimerAsks(y, l);
    CopyIs(r, f);
    z := OnTimer(y, l);
    assert Packet(l, f, CopyFor(r, f)) in z.sent;
  }

  /** A follower that heeds a copy: refusing it while it does not hold the entry before it, and otherwise holding
      all that the leader does. */
  predicate Heeded(r: Replica, q: Replica, t: Replica, prev: nat)
    requires prev <= |r.log|
  {
    && t.term == r.term && t.role == Follower && t.commit >= q.commit
    && (TermAt(q.log, prev) == Some(TermBefore(r, prev)) ==>
          prev <= |q.log| && t.log == Take(q.log, prev, r.log[prev..]) && t.commit >= Min(r.commit, |r.log|))
  }

  lemma CopyHeard(y: System, l: nat, f: nat, among: set<nat>) returns (z: System)
    requires l in among && f in among && l != f && l < REPLICAS && f < REPLICAS && |y.replicas| == REPLICAS
    requires y.replicas[l].role == Leader && f < |y.replicas[l].next| && y.replicas[l].next[f] <= |y.replicas[l].log| + 1
    requires y.replicas[f].term <= y.replicas[l].term && y.replicas[f].role != Leader
    requires var r := y.replicas[l];
             var prev := PrevOf(r, f);
             Packet(l, f, Append(r.term, prev, TermBefore(r, prev), r.log[prev..], r.commit)) in y.sent
    ensures Reach(y, z, among) && f < |z.replicas| && Changes(y, z, f, z.replicas[f])
    ensures var r, q := y.replicas[l], y.replicas[f];
            var prev := PrevOf(r, f);
            && Heeded(r, q, z.replicas[f], prev)
            && Packet(f, l, Appended(r.term, if TermAt(q.log, prev) == Some(TermBefore(r, prev)) then Some(|r.log|) else None)) in z.sent
  {
    hide Reach, OnAppend, Adopt, Take, Ops;
    var r, q := y.replicas[l], y.replicas[f];
    var prev := PrevOf(r, f);
    Hear(y, Packet(l, f, Append(r.term, prev, TermBefore(r, prev), r.log[prev..], r.commit)), among);
    LaterTermTakenUp(y, f, r.term);
    var b := if r.term > q.term then Adopt(y, f, r.term) else y;
    AppendAnswers(b, f, l, r.term, prev, TermBefore(r, prev), r.log[prev..], r.commit);
    z := OnAppend(b, f, l, r.term, prev, TermBefore(r, prev), r.log[prev..], r.commit);
  }

  lemma LeaderBounds(y: System, l: nat, f: nat)
    requires Kept(y) && l < |y.replicas| && f < REPLICAS && y.replicas[l].role == Leader
    ensures var r := y.replicas[l];
            && |r.next| == REPLICAS && |r.matched| == REPLICAS && r.next[f] <= |r.log| + 1 && r.matched[f] <= |r.log|
            && r.matched[l] == |r.log| && |r.log| > 0 && LastTerm(r.log) == r.term && r.commit <= |r.log|
  {
    OkAt(y, l);
    PastOf(y.history, y.replicas[l], l);
    assert SelfOk(y.replicas[l], l);
    MatchedBound(y, l, f);
    MatchedBound(y, l, l);
  }

  /** Nobody is known to hold more of a leader's log than there is. */
  lemma MatchedBound(y: System, l: nat, f: nat)
    requires Kept(y) && l < |y.replicas| && f < REPLICAS && y.replicas[l].role == Leader
    ensures |y.replicas[l].matched| == REPLICAS && y.replicas[l].matched[f] <= |y.replicas[l].log|
  {
    var r, h := y.replicas[l], y.history;
    OkAt(y, l);
    PastOf(h, r, l);
    CoherentOf(y);
    if r.matched[f] > 0 {
      assert (f, r.term) in h.acked;
    }
  }

  /** The leader hears how far a follower agrees, and commits what most hold. */
  lemma AnswerHeard(y: System, l: nat, f: nat, matched: Option<nat>, among: set<nat>) returns (z: System)
    requires Kept(y) && l in among && f in among && l != f && l < REPLICAS && f < REPLICAS && |y.replicas| == REPLICAS
    requires y.replicas[l].role == Leader && Packet(f, l, Appended(y.replicas[l].term, matched)) in y.sent
    ensures |y.replicas[l].next| == |y.replicas[l].matched| == REPLICAS
    ensures Reach(y, z, among) && l < |z.replicas| && Changes(y, z, l, z.replicas[l])
    ensures StillLeads(y.replicas[l], z.replicas[l])
    ensures match matched
            case None => z.replicas[l].next[f] == if y.replicas[l].next[f] > 1 then y.replicas[l].next[f] - 1 else 1
            case Some(reached) => z.replicas[l].matched[f] >= reached && CommitsAll(z.replicas[l])
  {
    hide Reach, OnAppended, Kept;
    var r := y.replicas[l];
    LeaderBounds(y, l, f);
    Hear(y, Packet(f, l, Appended(r.term, matched)), among);
    AnswerCommits(y, l, f, r.term, matched);
    z := OnAppended(y, l, f, r.term, matched);
    var held := if matched.Some? && matched.value > r.matched[f] then matched.value else r.matched[f];
    var next := if matched.Some? then held + 1 else if r.next[f] > 1 then r.next[f] - 1 else 1;
    FurthestIsAll(r.(next := r.next[f := next], matched := r.matched[f := held]), z.replicas[l]);
  }

  lemma FurthestIsAll(r: Replica, q: Replica)
    requires CommitsFurthest(r, q) && |r.log| > 0 && LastTerm(r.log) == r.term
    ensures CommitsAll(q)
  {
    if MostOf(set f | 0 <= f < |r.matched| && r.matched[f] >= |r.log|) && r.commit < |r.log| {
      assert HeldByMost(r, |r.log|);
    }
  }

  /** A follower comes to hold all that the leader does, however far back their logs part; and to have committed as
      far as the leader had. */
  lemma {:induction false} Syncs(y: System, l: nat, f: nat, among: set<nat>) returns (z: System)
    requires Kept(y) && l in among && f in among && l != f && l < REPLICAS && f < REPLICAS && |y.replicas| == REPLICAS
    requires y.replicas[l].role == Leader && |y.replicas[l].next| == REPLICAS
    requires y.replicas[f].term <= y.replicas[l].term && y.replicas[f].role != Leader
    ensures Reach(y, z, among) && Kept(z) && Exchange(y, z, l, f)
    ensures |z.replicas[l].matched| == REPLICAS && z.replicas[l].matched[f] >= |y.replicas[l].log| && CommitsAll(z.replicas[l])
    ensures z.replicas[f].commit >= Min(y.replicas[l].commit, |y.replicas[l].log|)
    decreases y.replicas[l].next[f]
  {
    hide Reach, Kept, CommitsAll, Take;
    LeaderBounds(y, l, f);
    var r, q := y.replicas[l], y.replicas[f];
    var prev := PrevOf(r, f);
    var a := CopyLeaves(y, l, f, among);
    var b := CopyHeard(a, l, f, among);
    Onward(y, a, b, among);
    ReachKept(y, b, among);
    if TermAt(q.log, prev) == Some(TermBefore(r, prev)) {
      z := AnswerHeard(b, l, f, Some(|r.log|), among);
      Onward(y, b, z, among);
      ReachKept(b, z, among);
      LeaderBounds(z, l, f);
    } else {
      var c := AnswerHeard(b, l, f, None, among);
      Onward(y, b, c, among);
      ReachKept(b, c, among);
      assert Exchange(y, c, l, f);
      z := Syncs(c, l, f, among);
      Onward(y, c, z, among);
      ExchangeTwice(y, c, z, l, f);
    }
  }

  /** One follower after another: what holds of one once it has been brought up goes on holding. */
  lemma {:induction false} AllSync(y: System, l: nat, among: set<nat>, todo: set<nat>) returns (z: System)
    requires Kept(y) && |y.replicas| == REPLICAS && Led(y, l, among) && todo <= among - {l}
    requires forall q :: q in among ==> q < REPLICAS
    ensures Reach(y, z, among) && Kept(z) && |z.replicas| == REPLICAS && Led(z, l, among) && StillLeads(y.replicas[l], z.replicas[l])
    ensures |z.replicas[l].matched| == REPLICAS
    ensures forall f :: f in todo ==> z.replicas[l].matched[f] >= |y.replicas[l].log|
    ensures forall f :: f in todo ==> z.replicas[f].commit >= Min(y.replicas[l].commit, |y.replicas[l].log|)
    ensures forall f :: f in among - todo - {l} ==> z.replicas[f] == y.replicas[f]
    ensures todo != {} ==> CommitsAll(z.replicas[l])
    decreases |todo|
  {
    hide Reach, Kept, CommitsAll;
    LeaderBounds(y, l, l);
    if todo == {} {
      Stay(y, among);
      z := y;
    } else {
      var f :| f in todo;
      var a := AllSync(y, l, among, todo - {f});
      LeaderBounds(a, l, f);
      z := Syncs(a, l, f, among);
      Onward(y, a, z, among);
      ManyReplicas(z);
      assert Led(z, l, among);
    }
  }

  /** A client's command comes to be in the leader's log. */
  lemma TakesCommand(y: System, l: nat, command: nat, among: set<nat>) returns (z: System)
    requires Kept(y) && |y.replicas| == REPLICAS && Led(y, l, among) && forall q :: q in among ==> q < REPLICAS
    ensures Reach(y, z, among) && Kept(z) && |z.replicas| == REPLICAS && Led(z, l, among)
    ensures exists k :: 0 <= k < |z.replicas[l].log| && z.replicas[l].log[k].op == Command(command)
  {
    hide Reach, Kept, OnSubmit;
    var r := y.replicas[l];
    OneStep(y, Step.Client(l, command), among);
    z := OnSubmit(y, l, command);
    SubmitIsNext(y, l, command);
    CommandTakenIff(y, l, command);
    ReachKept(y, z, among);
    if !(exists k :: 0 <= k < |r.log| && r.log[k].op == Command(command)) {
      assert z.replicas[l].log[|r.log|].op == Command(command);
    }
  }

  lemma SubmitIsNext(y: System, l: nat, command: nat)
    requires l < |y.replicas|
    ensures Enabled(y, Step.Client(l, command)) && Next(y, Step.Client(l, command)) == OnSubmit(y, l, command)
  {
    hide OnSubmit;
  }

  /** With all that it holds held by most, a leader has committed it; and then so have all of them, and applied it. */
  lemma AllApply(y: System, l: nat, among: set<nat>) returns (z: System)
    requires Kept(y) && |y.replicas| == REPLICAS && Led(y, l, among) && MostOf(among) && forall q :: q in among ==> q < REPLICAS
    ensures Reach(y, z, among) && Kept(z) && |z.replicas| == REPLICAS && Led(z, l, among) && z.replicas[l].log == y.replicas[l].log
    ensures forall q :: q in among ==> z.replicas[q].applied == Ops(y.replicas[l].log)
  {
    hide Reach, Kept, CommitsAll, Ops;
    var v, w := TwoOthers(among, l);
    var a := AllSync(y, l, among, among - {l});
    LeaderBounds(a, l, l);
    HeldByAll(a.replicas[l], l, among);
    z := AllSync(a, l, among, among - {l});
    Onward(y, a, z, among);
    LeaderBounds(z, l, l);
    forall q | q in among ensures z.replicas[q].applied == Ops(y.replicas[l].log) {
      AppliesAll(z, l, q);
    }
  }

  lemma HeldByAll(r: Replica, l: nat, among: set<nat>)
    requires CommitsAll(r) && MostOf(among) && l in among && l < |r.matched| && r.matched[l] >= |r.log|
    requires forall f :: f in among ==> f < |r.matched| && r.matched[f] >= |r.log|
    ensures r.commit >= |r.log|
  {
    var held := set f | 0 <= f < |r.matched| && r.matched[f] >= |r.log|;
    SubsetSize(among, held);
  }

  lemma AppliesAll(y: System, l: nat, q: nat)
    requires Kept(y) && l < |y.replicas| && q < |y.replicas| && y.replicas[l].role == Leader
    requires y.replicas[q].term <= y.replicas[l].term && y.replicas[q].commit >= |y.replicas[l].log|
    ensures y.replicas[q].applied == Ops(y.replicas[l].log)
  {
    hide Inv, ReplicaOk, AllSelf, Ops;
    LeaderHolds(y, l, q);
    OkAt(y, q);
    PastOf(y.history, y.replicas[q], q);
    var a, r := y.replicas[l].log, y.replicas[q];
    assert a[..r.commit] == a;
  }

  // ---------------------------------------------------------------------------------------------
  // No majority is ever stuck

  /** From any system a run comes to, any majority on its own can have any command applied by every one of them:
      whoever leads, whatever their terms and logs, whatever was sent and never arrived, and with not one message
      from or to anyone else. */
  lemma MajorityGoesOn(ys: seq<System>, steps: seq<Step>, k: nat, among: set<nat>, command: nat) returns (z: System)
    requires Runs(ys, steps) && k < |ys|
    requires 2 * |among| > REPLICAS && forall q :: q in among ==> q < REPLICAS
    ensures Reach(ys[k], z, among) && |z.replicas| == REPLICAS
    ensures exists applied: seq<Op> ::
              Command(command) in applied && forall q :: q in among ==> z.replicas[q].applied == applied
  {
    hide Runs, Reach, Kept, Ops;
    var l;
    RunKept(ys, steps, k);
    var a, b;
    a, l := ComesToBeLed(ys[k], among);
    ManyReplicas(a);
    b := TakesCommand(a, l, command, among);
    z := AllApply(b, l, among);
    Onward(ys[k], a, b, among);
    Onward(ys[k], b, z, among);
    OpsHold(b.replicas[l].log, command);
    assert forall q :: q in among ==> z.replicas[q].applied == Ops(b.replicas[l].log);
  }

  lemma OpsHold(log: Log, command: nat)
    requires exists k :: 0 <= k < |log| && log[k].op == Command(command)
    ensures Command(command) in Ops(log)
  {
    var k :| 0 <= k < |log| && log[k].op == Command(command);
    assert Ops(log)[k] == Command(command);
  }

  // ---------------------------------------------------------------------------------------------
  // And nobody deaf gets in the way

  /** A replica that hears nothing, however often its timer runs out, never moves a term, stands, or votes; so no
      replica is ever taken to a term that it began. */
  lemma {:induction false} DeafMovesNoTerm(ys: seq<System>, steps: seq<Step>, k: nat, m: nat, i: nat)
    requires Runs(ys, steps) && k <= m < |ys| && i < REPLICAS && |ys[k].replicas| == REPLICAS
    requires forall n :: k <= n < m ==> !(steps[n].Deliver? && steps[n].packet.dest == i) && !(steps[n].Client? && steps[n].i == i)
    ensures |ys[m].replicas| == REPLICAS
    ensures var r, q := ys[k].replicas[i], ys[m].replicas[i];
            q.term == r.term && q.role == r.role && q.votedFor == r.votedFor && q.log == r.log && q.commit == r.commit
  {
    hide Next, Enabled;
    if k < m {
      DeafMovesNoTerm(ys, steps, k, m - 1, i);
      StepKeeps(ys[m - 1], steps[m - 1]);
      DeafStep(ys[m - 1], steps[m - 1], i);
    }
  }

  lemma DeafStep(y: System, step: Step, i: nat)
    requires Enabled(y, step) && i < |y.replicas| && |Next(y, step).replicas| == |y.replicas|
    requires !(step.Deliver? && step.packet.dest == i) && !(step.Client? && step.i == i)
    ensures var r, q := y.replicas[i], Next(y, step).replicas[i];
            q.term == r.term && q.role == r.role && q.votedFor == r.votedFor && q.log == r.log && q.commit == r.commit
  {
    hide Handle, CopyFor;
    match step
    case Timer(j) =>
    case Deliver(p) =>
      var term := TermOf(p.message);
      OnlyOneHears(if term.Some? && term.value > y.replicas[p.dest].term then Adopt(y, p.dest, term.value) else y,
                   p.dest, p.sender, p.message, i);
    case Client(j, command) => OnlyOneHears(y, j, REPLICAS, Submit(command), i);
  }

  lemma OnlyOneHears(y: System, j: nat, peer: nat, m: Message, i: nat)
    requires j < |y.replicas| && i < |y.replicas| && i != j
    ensures |Handle(y, j, peer, m).replicas| == |y.replicas| && Handle(y, j, peer, m).replicas[i] == y.replicas[i]
  {
    hide Take, Ops, Reached, CopyFor, NotBehind, TermAt, Has;
  }
}
