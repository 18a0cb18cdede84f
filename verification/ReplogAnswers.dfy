/** What the replicas of the replicated log answer their clients, and when: a leader owes an answer for every command
    it took and has not committed, and gives it the moment it commits. */
module ReplogAnswers {
  import opened Replog
  import opened ReplogClients
  import opened ReplogRules
  import opened ReplogInv
  import opened ReplogOrder
  import opened ReplogSafe
  import opened ReplogSafety
  import opened ReplogSteps
  import opened ReplogVerdict
  import opened ReplogViews
  import opened Wrappers

  // ---------------------------------------------------------------------------------------------
  // What a leader owes

  /** Whoever owes an answer leads; and each answer owed is for a command its log holds, where it is owed, past what
      is committed. A leader is not asking whether it could stand. */
  predicate OwesOk(r: Replica, owed: Pending) {
    && (owed != map[] ==> r.role == Leader)
    && (forall at :: at in owed ==> r.commit < at <= |r.log| && r.log[at - 1].op == Command(owed[at].1))
    && (r.role == Leader ==> r.prevotes == {})
  }

  ghost predicate AllOwe(w: Whole) {
    && |w.pending| == |w.y.replicas|
    && forall i :: 0 <= i < |w.pending| ==> OwesOk(w.y.replicas[i], w.pending[i])
  }

  /** A replica hearing anything but how far a follower agrees goes on owing what it did, once it is in the term of
      what it hears. */
  lemma HearsOwing(y: System, i: nat, peer: nat, m: Message, owed: Pending)
    requires i < |y.replicas| && OwesOk(y.replicas[i], owed) && !m.Appended? && !m.Submit?
    ensures i < |Handle(y, i, peer, m).replicas| && OwesOk(Handle(y, i, peer, m).replicas[i], owed)
  {
    hide Take, Ops, CopyFor, NotBehind;
  }

  lemma InTermOwing(y: System, i: nat, m: Message, owed: Pending)
    requires i < |y.replicas| && OwesOk(y.replicas[i], owed)
    ensures OwesOk(InTermOf(y, i, m).replicas[i], OwedInTerm(y.replicas[i], m, owed))
  {}

  /** What a leader tells once it has committed further, and what it goes on owing. */
  lemma CommitsOwing(r: Replica, q: Replica, owed: Pending)
    requires OwesOk(r, owed) && q.role == r.role && q.log == r.log && q.commit >= r.commit && q.prevotes == r.prevotes
    ensures OwesOk(q, if q.commit > r.commit then StillOwed(q, owed) else owed)
  {}

  lemma AnswerOwing(y: System, i: nat, peer: nat, term: nat, matched: Option<nat>, owed: Pending)
    requires i < |y.replicas| && OwesOk(y.replicas[i], owed)
    ensures var r, z := y.replicas[i], OnAppended(y, i, peer, term, matched);
            && |z.replicas| == |y.replicas| && z.replicas[i].commit >= r.commit
            && OwesOk(z.replicas[i], if z.replicas[i].commit > r.commit then StillOwed(z.replicas[i], owed) else owed)
  {
    hide OnAppended, OwesOk;
    var r, z := y.replicas[i], OnAppended(y, i, peer, term, matched);
    AnswerCommits(y, i, peer, term, matched);
    if r.role != Leader || term != r.term || peer >= REPLICAS || peer >= |r.next| || peer >= |r.matched| {
      CommitsOwing(r, r, owed);
    } else {
      CommitsOwing(r, z.replicas[i], owed);
    }
  }

  lemma MovesOwing(w: Whole, step: Step)
    requires AllOwe(w) && Possible(w, Moves(step))
    ensures AllOwe(After(w, Moves(step)))
  {
    hide OwesOk, Next, Views, Latest, Enabled;
    var i, v := Actor(step), After(w, Moves(step));
    StepOnlyMoves(w.y, step);
    ActorIsOne(w.y, step);
    MoverOwes(w, step);
    forall j | 0 <= j < |v.pending| ensures OwesOk(v.y.replicas[j], v.pending[j]) {
      assert OwesOk(w.y.replicas[j], w.pending[j]);
    }
  }

  lemma MoverOwes(w: Whole, step: Step)
    requires AllOwe(w) && Possible(w, Moves(step)) && |Next(w.y, step).replicas| == |w.y.replicas|
    ensures OwesOk(Next(w.y, step).replicas[Actor(step)], Answering(w.y, step, w.pending[Actor(step)], w.now).1)
  {
    var i := Actor(step);
    assert OwesOk(w.y.replicas[i], w.pending[i]);
    match step
    case Timer(_) =>
    case Deliver(p) =>
      hide Handle, OwesOk, StillOwed;
      var m := p.message;
      var y, owed := InTermOf(w.y, i, m), OwedInTerm(w.y.replicas[i], m, w.pending[i]);
      InTermOwing(w.y, i, m, w.pending[i]);
      HandledIsNext(w.y, step);
      match m
      case Appended(term, matched) => AnswerOwing(y, i, p.sender, term, matched, owed);
      case Submit(command) => SubmitOwing(y, i, p.sender, command, owed);
      case _ => HearsOwing(y, i, p.sender, m, owed);
  }

  lemma SubmitOwing(y: System, i: nat, peer: nat, command: nat, owed: Pending)
    requires i < |y.replicas| && OwesOk(y.replicas[i], owed)
    ensures i < |Handle(y, i, peer, Submit(command)).replicas| && OwesOk(Handle(y, i, peer, Submit(command)).replicas[i], owed)
  {
    hide CopyFor;
  }

  /** A replica asked for a command owes it afterwards, if it leads and has not committed it. */
  lemma ReachesOwing(w: Whole, ask: Asking)
    requires AllOwe(w) && Possible(w, Reaches(ask)) && WholeOk(w)
    ensures AllOwe(After(w, Reaches(ask)))
  {
    CommittedIsLogged(w, ask.dest);
    OwingStill(w, ask);
  }

  /** Nobody has committed more than it holds. */
  lemma CommittedIsLogged(w: Whole, i: nat)
    requires WholeOk(w) && i < |w.y.replicas|
    ensures w.y.replicas[i].commit <= |w.y.replicas[i].log|
  {
    hide AllOnce, AllKnown, NoneForwarded, DonesOk, OwnCommands, AnswersOk, SentOk, AsksOk, ReplicaOk;
    OkAt(w.y, i);
    PastOf(w.y.history, w.y.replicas[i], i);
  }

  lemma OwingStill(w: Whole, ask: Asking)
    requires AllOwe(w) && Possible(w, Reaches(ask)) && w.y.replicas[ask.dest].commit <= |w.y.replicas[ask.dest].log|
    ensures AllOwe(After(w, Reaches(ask)))
  {
    hide Next, Views, Latest, OnSubmit, OwesOk, Takings;
    var i, step, v := ask.dest, Client(ask.dest, ask.command), After(w, Reaches(ask));
    StepOnlyMoves(w.y, step);
    HandledIsNext(w.y, step);
    assert OwesOk(w.y.replicas[i], w.pending[i]);
    TakingOwes(w.y, ask, w.pending[i], w.now);
    forall j | 0 <= j < |v.pending| ensures OwesOk(v.y.replicas[j], v.pending[j]) {
      assert OwesOk(w.y.replicas[j], w.pending[j]);
    }
  }

  lemma TakingOwes(y: System, ask: Asking, owed: Pending, now: nat)
    requires ask.dest < |y.replicas| && OwesOk(y.replicas[ask.dest], owed)
    requires y.replicas[ask.dest].commit <= |y.replicas[ask.dest].log|
    ensures ask.dest < |OnSubmit(y, ask.dest, ask.command).replicas|
    ensures OwesOk(OnSubmit(y, ask.dest, ask.command).replicas[ask.dest], Takings(y.replicas[ask.dest], ask, owed, now).1)
  {
    hide OnSubmit;
    CommandTakenIff(y, ask.dest, ask.command);
    var r := y.replicas[ask.dest];
    var held := HeldAt(r.log, ask.command);
    if held.Some? {
      assert r.log[held.value - 1].op == Command(ask.command);
    }
  }

  lemma ActOwing(w: Whole, act: Act)
    requires AllOwe(w) && WholeOk(w) && Possible(w, act)
    ensures AllOwe(After(w, act))
  {
    hide OwesOk, WholeOk;
    match act
    case Moves(step) => MovesOwing(w, step);
    case Reaches(ask) => ReachesOwing(w, ask);
    case _ =>
  }

  lemma {:induction false} RunOwing(ws: seq<Whole>, acts: seq<Act>, k: nat)
    requires RunsOn(ws, acts) && k < |ws|
    ensures AllOwe(ws[k])
  {
    hide Possible, After;
    if k > 0 {
      RunOwing(ws, acts, k - 1);
      RunOk(ws, acts, k - 1);
      hide AllOwe, WholeOk;
      ActOwing(ws[k - 1], acts[k - 1]);
    }
  }

  // ---------------------------------------------------------------------------------------------
  // What clients are told

  /** In every run, a leader that commits further tells, there and then, every client it owes for what that commits:
      none is passed over, and it goes on owing exactly the rest. */
  lemma AnswersAllItOwes(ws: seq<Whole>, acts: seq<Act>, k: nat, at: nat)
    requires RunsOn(ws, acts) && k < |acts| && acts[k].Moves? && acts[k].step.Deliver?
    requires var w, p := ws[k], acts[k].step.packet;
             && p.message.Appended? && p.message.term <= w.y.replicas[p.dest].term && at in w.pending[p.dest]
    ensures var w, v, i := ws[k], ws[k + 1], acts[k].step.packet.dest;
            && i < |v.y.replicas| && i < |v.pending|
            && (at <= v.y.replicas[i].commit ==>
                  at !in v.pending[i] && Submitted(w.pending[i][at].0, w.pending[i][at].1, Done, w.now) in v.answers)
            && (at > v.y.replicas[i].commit ==> at in v.pending[i] && v.pending[i][at] == w.pending[i][at])
  {
    hide Views, Latest, Handle;
    var w, step := ws[k], acts[k].step;
    var i, m := step.packet.dest, step.packet.message;
    RunOwing(ws, acts, k);
    assert OwesOk(w.y.replicas[i], w.pending[i]);
    HandledIsNext(w.y, step);
    AnswerOwing(w.y, i, step.packet.sender, m.term, m.matched, w.pending[i]);
    LogStays(w.y, i, step.packet.sender, m.term, m.matched);
    StepKeeps(w.y, step);
  }

  lemma LogStays(y: System, i: nat, peer: nat, term: nat, matched: Option<nat>)
    requires i < |y.replicas|
    ensures Handle(y, i, peer, Appended(term, matched)) == OnAppended(y, i, peer, term, matched)
    ensures |OnAppended(y, i, peer, term, matched).replicas| == |y.replicas|
    ensures OnAppended(y, i, peer, term, matched).replicas[i].log == y.replicas[i].log
  {
    hide OnAppended;
    AnswerCommits(y, i, peer, term, matched);
  }

  /** Asked of a leader, a command its log now holds at `at` is answered at once if it is committed there, and owed an
      answer there if not. */
  predicate AnsweredAt(w: Whole, v: Whole, ask: Asking, at: nat)
    requires ask.dest < |w.y.replicas| == |v.y.replicas| == |v.pending|
  {
    var q := v.y.replicas[ask.dest];
    && 1 <= at <= |q.log| && q.log[at - 1].op == Command(ask.command)
    && if at <= w.y.replicas[ask.dest].commit then
         v.answers == w.answers + {Submitted(ask.client, ask.command, Done, w.now)} && v.pending == w.pending
       else
         && v.answers == w.answers && at in v.pending[ask.dest]
         && v.pending[ask.dest][at] == (ask.client, ask.command)
  }

  /** A client asking anyone but a leader is pointed at the leader that replica follows; asking a leader for what it
      has committed, it is told so at once; and asking for anything else, it is owed an answer where the leader's log
      now holds the command. */
  lemma AskedIsAnswered(ws: seq<Whole>, acts: seq<Act>, k: nat, ask: Asking)
    requires RunsOn(ws, acts) && k < |acts| && acts[k] == Reaches(ask)
    ensures var w, v := ws[k], ws[k + 1];
            && ask.dest < |w.y.replicas| == |v.y.replicas| == |v.pending| == |w.pending|
            && var r, q := w.y.replicas[ask.dest], v.y.replicas[ask.dest];
               if r.role != Leader then
                 v.answers == w.answers + {Submitted(ask.client, ask.command, NotLeader(r.leader), w.now)} && v.pending == w.pending
               else
                 exists at :: AnsweredAt(w, v, ask, at)
  {
    hide Views, Latest, Next, WholeOk, AnsweredAt;
    RunOk(ws, acts, k);
    TakenIsAnswered(ws[k], ask);
  }

  lemma TakenIsAnswered(w: Whole, ask: Asking)
    requires WholeOk(w) && Possible(w, Reaches(ask))
    ensures var v := After(w, Reaches(ask));
            && |v.y.replicas| == |v.pending| == |w.y.replicas|
            && var r := w.y.replicas[ask.dest];
               if r.role != Leader then
                 v.answers == w.answers + {Submitted(ask.client, ask.command, NotLeader(r.leader), w.now)} && v.pending == w.pending
               else exists at :: AnsweredAt(w, v, ask, at)
  {
    hide Views, Latest, OnSubmit, WholeOk;
    var v, step := After(w, Reaches(ask)), Client(ask.dest, ask.command);
    var r := w.y.replicas[ask.dest];
    CommittedIsLogged(w, ask.dest);
    StepOnlyMoves(w.y, step);
    HandledIsNext(w.y, step);
    CommandTakenIff(w.y, ask.dest, ask.command);
    var held := HeldAt(r.log, ask.command);
    if r.role == Leader {
      if held.None? {
        assert AnsweredAt(w, v, ask, |r.log| + 1);
      } else {
        assert r.log[held.value - 1].op == Command(ask.command);
        assert v.y.replicas[ask.dest].log == r.log;
        assert AnsweredAt(w, v, ask, held.value);
      }
    }
  }

  /** What is written of a client: each command as it is first sent, and the instant it hears one is done; and of no
      command but that one. */
  lemma ClientWritten(w: Whole, act: Act)
    requires Possible(w, act) && (act.Sends? || act.Hears?)
    ensures var clients, now := w.view.clients, After(w, act).view.clients;
            var c := if act.Sends? then act.client else act.answer.client;
            var command := if act.Sends? then 3 * w.askers[c].round + c + 1 else act.answer.command;
            && After(w, act).view.replicas == w.view.replicas
            && (forall e, n :: e in clients && n in clients[e] && (e, n) != (c, command) ==>
                  e in now && n in now[e] && now[e][n] == clients[e][n])
            && (forall e, n :: e in now && n in now[e] && (e, n) != (c, command) ==> e in clients && n in clients[e])
            && (act.Sends? ==> c in now && command in now[c] && now[c][command] == Submission(w.now, None))
            && (act.Hears? && c in clients && command in clients[c] ==>
                  c in now && command in now[c] && now[c][command] == Submission(clients[c][command].sent, Some(w.now)))
  {}

  // ---------------------------------------------------------------------------------------------
  // The clients' rounds

  /** A round takes the next three numbers, the clients in turn, so no two commands share one. */
  lemma CommandsApart(round: nat, client: nat, other: nat, another: nat)
    requires round > 0 && other > 0 && client < 3 && another < 3
    ensures 3 * (round - 1) < Numbered(round, client) <= 3 * round
    ensures client == 0 ==> Numbered(round, client) == 3 * (round - 1) + 1
    ensures client > 0 ==> Numbered(round, client) == Numbered(round, client - 1) + 1
    ensures Numbered(round, client) == Numbered(other, another) <==> round == other && client == another
  {}

  /** At the start of a run nobody has asked anything, been told anything, or been owed anything, and nothing is written. */
  lemma OpensWith()
    ensures var w := Opening();
            && w.now == 0 && w.asks == {} && w.answers == {} && w.view == View(map[], map[])
            && |w.askers| == 3 && (forall c :: 0 <= c < 3 ==> w.askers[c] == Asker(0, false))
            && |w.pending| == 5 && (forall i :: 0 <= i < 5 ==> w.pending[i] == map[])
  {}

  /** What a client may do, and from which instant on, that very instant included: send the command of the next of its
      five rounds once that round has opened, ask about it while it waits, and hear it is done once an answer has had
      time to cross. */
  lemma ClientMay(w: Whole, c: nat, dest: nat, a: Submitted)
    requires |w.pending| == |w.y.replicas| && c < |w.askers|
    ensures Possible(w, Sends(c))
            <==> !w.askers[c].waiting && w.askers[c].round < 5 && w.now >= 2_000_000_000 * (w.askers[c].round + 1)
    ensures Possible(w, Asks(c, dest)) <==> w.askers[c].waiting && w.askers[c].round > 0 && dest < 5
    ensures a.client == c && a.answer == Done && a in w.answers ==>
              (Possible(w, Hears(a)) <==>
                 w.askers[c].waiting && w.askers[c].round > 0 && a.command == 3 * (w.askers[c].round - 1) + c + 1
                 && w.now >= a.at + 10_000_000)
  {}

  /** An ask is on its way from the moment it is made, for the command of the client's own round, and changes nothing else;
      hearing an answer changes nothing but what the client waits for and what is written of it. */
  lemma ClientLeaves(w: Whole, c: nat, dest: nat, a: Submitted)
    ensures Possible(w, Asks(c, dest)) ==>
              var v := After(w, Asks(c, dest));
              v == w.(asks := v.asks)
              && (forall ask :: ask in v.asks
                    <==> ask in w.asks || ask == Asking(c, dest, 3 * (w.askers[c].round - 1) + c + 1))
    ensures Possible(w, Sends(c)) ==>
              var v := After(w, Sends(c));
              v == w.(askers := w.askers[c := Asker(w.askers[c].round + 1, true)], view := v.view)
    ensures Possible(w, Hears(a)) ==>
              var v := After(w, Hears(a));
              v == w.(askers := w.askers[a.client := Asker(w.askers[a.client].round, false)], view := v.view)
  {}

  /** In every run no client sends more than five commands, and none before its round opens. */
  lemma {:induction false} RoundsInTime(ws: seq<Whole>, acts: seq<Act>, k: nat, c: nat)
    requires RunsOn(ws, acts) && k < |ws| && c < 3
    ensures |ws[k].askers| == 3 && ws[k].askers[c].round <= 5 && ws[k].now >= 2_000_000_000 * ws[k].askers[c].round
    ensures ws[k].askers[c].waiting ==> ws[k].askers[c].round > 0
  {
    if k > 0 {
      RoundsInTime(ws, acts, k - 1, c);
      hide Views, Answering, Takings, Next;
      assert Possible(ws[k - 1], acts[k - 1]) && ws[k - 1 + 1] == After(ws[k - 1], acts[k - 1]);
    }
  }

  /** And what a replica may do: begin once, and once begun take any step it could, or any request that reaches it. Time
      may always pass. */
  lemma ReplicaMay(w: Whole, i: nat, step: Step, ask: Asking, time: nat)
    requires |w.pending| == |w.y.replicas|
    ensures Possible(w, Begins(i)) <==> i < |w.y.replicas| && i !in w.view.replicas
    ensures Possible(w, Moves(step)) <==> !step.Client? && Enabled(w.y, step) && Actor(step) in w.view.replicas
    ensures Possible(w, Reaches(ask)) <==> ask in w.asks && ask.dest < |w.y.replicas| && ask.dest in w.view.replicas
    ensures Possible(w, Passes(time)) && After(w, Passes(time)) == w.(now := w.now + time)
  {}
}
