/** Every view a run of the replicated log writes down keeps its safety promises: what the verdict rests on is
    kept by every act of every replica and every client. */
module ReplogViews {
  import opened Replog
  import opened ReplogClients
  import opened ReplogInv
  import opened ReplogOrder
  import opened ReplogRuns
  import opened ReplogSafe
  import opened ReplogSafety
  import opened ReplogSteps
  import opened ReplogVerdict
  import opened Wrappers

  // ---------------------------------------------------------------------------------------------
  // What is noted within a step

  lemma InTermGrounded(y: System, i: nat, m: Message, clients: Asked)
    requires Grounded(y, clients) && i < |y.replicas|
    ensures var z := InTermOf(y, i, m);
            && Grounded(z, clients) && Keeps(y, z) && (forall j :: 0 <= j < |y.replicas| && j != i ==> z.replicas[j] == y.replicas[j])
            && (TermOf(m).Some? ==> TermOf(m).value <= z.replicas[i].term) && z.history == y.history && z.sent == y.sent
  {
    hide Inv, AllOnce, AllKnown, NoneForwarded;
    var term := TermOf(m);
    if term.Some? && term.value > y.replicas[i].term {
      AdoptInv(y, i, term.value);
    }
  }

  lemma OthersStay(y: System, i: nat, peer: nat, m: Message)
    requires i < |y.replicas|
    ensures |Handle(y, i, peer, m).replicas| == |y.replicas|
    ensures forall j :: 0 <= j < |y.replicas| && j != i ==> Handle(y, i, peer, m).replicas[j] == y.replicas[j]
  {
    hide Take, Ops, Reached, CopyFor, NotBehind, TermAt, Has;
  }

  /** A replica with its leader's entries just taken is as sound as it was. */
  lemma TookGrounded(y: System, i: nat, peer: nat, term: nat, prev: nat, prevTerm: nat, copied: Log, commit: nat, clients: Asked)
    requires Grounded(y, clients) && i < |y.replicas| && term <= y.replicas[i].term
    requires Takes(y.replicas[i], peer, term, prev, prevTerm)
    requires MessageOk(y.history, Packet(peer, i, Append(term, prev, prevTerm, copied, commit)))
    ensures var z := Took(y, i, peer, prev, copied);
            Grounded(z, clients) && Keeps(y, z) && (forall j :: 0 <= j < |y.replicas| && j != i ==> z.replicas[j] == y.replicas[j])
  {
    hide Inv, MessageOk, Committed, FitsOn, Take, AllOnce, AllKnown, NoneForwarded;
    HeedsInv(y, i, peer);
    Meets(y, i, peer, prev, prevTerm, copied, commit);
    TookFacts(Set(y, i, Heeds(y.replicas[i], peer)), i, peer, prev, copied, commit);
    TookLogs(y, i, peer, prev, copied, clients);
  }

  lemma TookLogs(y: System, i: nat, peer: nat, prev: nat, copied: Log, clients: Asked)
    requires AllOnce(y.history) && AllKnown(y.history, Commands(clients)) && NoneForwarded(y.sent)
    requires i < |y.replicas| && prev <= |y.replicas[i].log|
    ensures var z := Took(y, i, peer, prev, copied);
            AllOnce(z.history) && AllKnown(z.history, Commands(clients)) && NoneForwarded(z.sent)
  {}

  predicate OnlyMoves(y: System, z: System, i: nat) {
    |z.replicas| == |y.replicas| && forall j :: 0 <= j < |y.replicas| && j != i ==> z.replicas[j] == y.replicas[j]
  }

  /** What handling comes to is one step on. */
  lemma HandledIsNext(y: System, step: Step)
    requires Enabled(y, step) && !step.Timer?
    ensures var i, m := Actor(step), Brought(step).1;
            Next(y, step) == Handle(InTermOf(y, i, m), i, Brought(step).0, m)
  {
    hide Handle, Adopt;
  }

  lemma NextGrounded(y: System, step: Step, clients: Asked)
    requires Grounded(y, clients) && Enabled(y, step) && (step.Client? ==> step.command in Commands(clients))
    ensures Grounded(Next(y, step), clients) && Keeps(y, Next(y, step)) && OnlyMoves(y, Next(y, step), Actor(step))
  {
    hide Inv, AllOnce, AllKnown, NoneForwarded, Next, Enabled, Commands;
    StepInv(y, step);
    StepOnce(y, step);
    StepKnown(y, step, Commands(clients));
    StepKeeps(y, step);
    StepOnlyMoves(y, step);
  }

  lemma StepOnlyMoves(y: System, step: Step)
    requires Enabled(y, step)
    ensures OnlyMoves(y, Next(y, step), Actor(step))
  {
    hide Handle;
    match step
    case Timer(i) =>
    case Deliver(p) => OthersStay(InTermOf(y, p.dest, p.message), p.dest, p.sender, p.message);
    case Client(i, command) => OthersStay(y, i, REPLICAS, Submit(command));
  }

  // ---------------------------------------------------------------------------------------------
  // What is noted, and what is so of it

  /** Each system noted is the one the step comes to, or a follower's with the entries just taken. */
  lemma NotedIs(y: System, step: Step, k: nat)
    requires Enabled(y, step) && k < |Noted(y, step)|
    ensures
      || Noted(y, step)[k] == Next(y, step)
      || (step.Deliver? && step.packet.message.Append?
          && var i, p := step.packet.dest, step.packet;
             var z := InTermOf(y, i, p.message);
             && Takes(z.replicas[i], p.sender, p.message.term, p.message.prevIndex, p.message.prevTerm)
             && Noted(y, step)[k] == Took(z, i, p.sender, p.message.prevIndex, p.message.entries))
  {
    hide Handle, Adopt, Took, Takes, Take, Next;
    if step.Timer? {
      TimerIsNext(y, step.i);
    } else {
      HandledIsNext(y, step);
    }
  }

  lemma TimerIsNext(y: System, i: nat)
    requires Enabled(y, Timer(i))
    ensures Next(y, Timer(i)) == OnTimer(y, i)
  {}

  lemma NotedGrounded(y: System, step: Step, k: nat, clients: Asked)
    requires Grounded(y, clients) && Enabled(y, step) && (step.Client? ==> step.command in Commands(clients))
    requires k < |Noted(y, step)|
    ensures var z := Noted(y, step)[k];
            Grounded(z, clients) && Keeps(y, z) && OnlyMoves(y, z, Actor(step))
  {
    hide Noted, Grounded, Next, InTermOf, Took, Takes, MessageOk;
    NotedIs(y, step, k);
    if Noted(y, step)[k] == Next(y, step) {
      NextGrounded(y, step, clients);
    } else {
      var i, p := step.packet.dest, step.packet;
      InTermGrounded(y, i, p.message, clients);
      var z := InTermOf(y, i, p.message);
      SentIsOk(y, p, clients);
      TookGrounded(z, i, p.sender, p.message.term, p.message.prevIndex, p.message.prevTerm, p.message.entries,
                   p.message.commit, clients);
      KeepsTwice(y, z, Noted(y, step)[k]);
    }
  }

  lemma SentIsOk(y: System, p: Packet, clients: Asked)
    requires Grounded(y, clients) && p in y.sent
    ensures MessageOk(y.history, p) && p == Packet(p.sender, p.dest, p.message)
  {
    hide ReplicasOk, Coherent, MessageOk;
  }

  lemma KeepsTwice(x: System, y: System, z: System)
    requires Keeps(x, y) && Keeps(y, z)
    ensures Keeps(x, z)
  {}

  /** Nothing a replica holds goes unwritten: what it holds after a step is what was last noted of it, or
      what it held before if nothing was. */
  lemma NothingUnwritten(y: System, step: Step)
    requires Enabled(y, step)
    ensures |Next(y, step).replicas| == |y.replicas|
    ensures var noted, i := Noted(y, step), Actor(step);
            Rec(Next(y, step).replicas[i])
            == Rec((if noted == [] then y else noted[|noted| - 1]).replicas[i])
  {
    StepKeeps(y, step);
    if !step.Timer? {
      HandledIsNext(y, step);
      HandledWritten(InTermOf(y, Actor(step), Brought(step).1), Actor(step), Brought(step).0, Brought(step).1);
    }
  }

  /** And nothing is written for nothing: whatever is noted as a message is handled differs from what was written
      before it. Only a timer is noted that changes nothing, and only of a replica that does not lead. */
  lemma OnlyChangesWritten(y: System, step: Step, k: nat)
    requires Enabled(y, step)
    ensures var noted, i := Noted(y, step), Actor(step);
            if step.Timer? then |noted| == (if y.replicas[i].role == Leader then 0 else 1)
            else
              |noted| <= 2
              && (k < |noted| ==> Rec(noted[k].replicas[i]) != Rec((if k == 0 then y else noted[k - 1]).replicas[i]))
  {
    if !step.Timer? && k < |Noted(y, step)| {
      var i, m := Actor(step), Brought(step).1;
      var adopted := InTermOf(y, i, m);
      HandleKeeps(adopted, i, Brought(step).0, m);
      if Within(adopted, i, Brought(step).0, m, Handle(adopted, i, Brought(step).0, m)) != [] {
        ChangesWithin(y, adopted, i, Brought(step).0, m, k);
      }
    }
  }

  /** Entries taken and committed by one message are written twice: once held and not yet committed, and then committed. */
  lemma TakenThenCommitted(y: System, step: Step)
    requires Enabled(y, step) && step.Deliver? && step.packet.message.Append?
    requires |Next(y, step).replicas| == |y.replicas|
    ensures var noted, i := Noted(y, step), step.packet.dest;
            var r, q := y.replicas[i], Next(y, step).replicas[i];
            q.log != r.log && q.commit > r.commit ==>
              && |noted| == 2 && Rec(noted[1].replicas[i]) == Rec(q)
              && noted[0].replicas[i].log == q.log && noted[0].replicas[i].commit == r.commit
  {
    hide Take, Ops, Min, TermAt, OnPreVote, OnPreVoted, OnRequestVote, OnVote, OnAppended, OnSubmit, OnTimer;
  }

  lemma ChangesWithin(x: System, y: System, i: nat, peer: nat, m: Message, k: nat)
    requires i < |x.replicas| == |y.replicas| && y == InTermOf(x, i, m)
    requires |Handle(y, i, peer, m).replicas| == |y.replicas| && k < |Within(y, i, peer, m, Handle(y, i, peer, m))|
    ensures var z := Handle(y, i, peer, m);
            var noted := Within(y, i, peer, m, z);
            && |noted| <= 2
            && Rec(noted[k].replicas[i]) != Rec((if k == 0 then x else noted[k - 1]).replicas[i])
  {
    hide Take, Ops, CopyFor, NotBehind, Reached, TermAt, Has;
  }

  lemma HandledWritten(y: System, i: nat, peer: nat, m: Message)
    requires i < |y.replicas| && |Handle(y, i, peer, m).replicas| == |y.replicas|
    ensures var z := Handle(y, i, peer, m);
            var noted := Within(y, i, peer, m, z);
            && (noted == [] ==> WrittenAlike(y.replicas[i], z.replicas[i]))
            && (noted != [] ==> Rec(noted[|noted| - 1].replicas[i]) == Rec(z.replicas[i]))
  {
    match m
    case Append(term, prev, prevTerm, copied, commit) => AppendWritten(y, i, peer, term, prev, prevTerm, copied, commit);
    case Appended(term, matched) => AppendedWritten(y, i, peer, term, matched);
    case _ => OtherWritten(y, i, peer, m);
  }

  /** Alike but for the term, the role and the vote, which are looked at once the handling is over. */
  predicate WrittenAlike(r: Replica, q: Replica) {
    Rec(r).(term := q.term, role := q.role, votedFor := q.votedFor) == Rec(q)
  }

  lemma OtherWritten(y: System, i: nat, peer: nat, m: Message)
    requires i < |y.replicas| && |Handle(y, i, peer, m).replicas| == |y.replicas| && !m.Append? && !m.Appended?
    ensures var z := Handle(y, i, peer, m);
            if Within(y, i, peer, m, z) == [] then WrittenAlike(y.replicas[i], z.replicas[i]) else Within(y, i, peer, m, z) == [z]
  {
    hide CopyFor, NotBehind;
  }

  lemma AppendWritten(y: System, i: nat, peer: nat, term: nat, prev: nat, prevTerm: nat, copied: Log, commit: nat)
    requires i < |y.replicas| && |OnAppend(y, i, peer, term, prev, prevTerm, copied, commit).replicas| == |y.replicas|
    ensures var m, z := Append(term, prev, prevTerm, copied, commit), OnAppend(y, i, peer, term, prev, prevTerm, copied, commit);
            var noted := Within(y, i, peer, m, z);
            && (noted == [] ==> WrittenAlike(y.replicas[i], z.replicas[i]))
            && (noted != [] ==> Rec(noted[|noted| - 1].replicas[i]) == Rec(z.replicas[i]))
  {
    hide Take, Ops, Min;
  }

  lemma AppendedWritten(y: System, i: nat, peer: nat, term: nat, matched: Option<nat>)
    requires i < |y.replicas| && |OnAppended(y, i, peer, term, matched).replicas| == |y.replicas|
    ensures var m, z := Appended(term, matched), OnAppended(y, i, peer, term, matched);
            if Within(y, i, peer, m, z) == [] then WrittenAlike(y.replicas[i], z.replicas[i]) else Within(y, i, peer, m, z) == [z]
  {
    hide CopyFor, Ops, Reached, Told;
    var r := y.replicas[i];
    if r.role == Leader && term == r.term && peer < REPLICAS && peer < |r.next| && peer < |r.matched| {
      var told := Told(y, i, peer, matched);
      ToldWrites(y, i, peer, matched);
      FurtherOn(told.replicas[i], |told.replicas[i].log|);
    }
  }

  lemma ToldWrites(y: System, i: nat, peer: nat, matched: Option<nat>)
    requires i < |y.replicas| && peer < |y.replicas[i].next| && peer < |y.replicas[i].matched|
    ensures Rec(Told(y, i, peer, matched).replicas[i]) == Rec(y.replicas[i])
  {}

  lemma {:induction false} FurtherOn(r: Replica, at: nat)
    requires at <= |r.log|
    ensures Reached(r, at).Some? ==> Reached(r, at).value > r.commit
  {
    if at > r.commit {
      FurtherOn(r, at - 1);
    }
  }

  // ---------------------------------------------------------------------------------------------
  // What was settled stays settled

  /** No client forgets a command, or when it was first sent. */
  predicate Remembers(a: Asked, b: Asked) {
    forall c, command :: c in a && command in a[c] ==> c in b && command in b[c] && b[c][command].sent == a[c][command].sent
  }

  lemma SentByStill(a: Asked, b: Asked, command: nat, due: nat, later: nat)
    requires Remembers(a, b) && SentBy(a, command, due) && due <= later
    ensures SentBy(b, command, later)
  {
    var c: nat :| AskedOf(a, c, command) && a[c][command].sent <= due;
    assert AskedOf(b, c, command);
  }

  lemma SettledStill(y: System, z: System, a: Asked, b: Asked, command: nat, due: nat, later: nat)
    requires Settled(y, a, command, due) && Keeps(y, z) && Remembers(a, b) && due <= later
    ensures Settled(z, b, command, later)
  {
    hide SentBy, Remembers;
    var j: nat, p: nat :| SettledAt(y, a, command, due, j, p);
    var was, now := y.replicas[j].applied, z.replicas[j].applied;
    assert was <= now;
    forall q | 0 <= q <= p && now[q].Command? ensures SentBy(b, now[q].command, later) {
      assert now[q] == was[q];
      SentByStill(a, b, now[q].command, due, later);
    }
    assert SettledAt(z, b, command, later, j, p);
  }

  lemma AnswersStill(y: System, z: System, a: Asked, b: Asked, answers: set<Submitted>, now: nat, later: nat)
    requires AnswersOk(y, a, answers, now) && Keeps(y, z) && Remembers(a, b) && now <= later
    ensures AnswersOk(z, b, answers, later)
  {
    hide Settled, Keeps, Remembers;
    forall s | s in answers && s.answer == Done ensures s.at <= later && Settled(z, b, s.command, s.at) {
      SettledStill(y, z, a, b, s.command, s.at, s.at);
    }
  }

  lemma DonesStill(y: System, z: System, clients: Asked)
    requires DonesOk(y, clients) && Keeps(y, z)
    ensures DonesOk(z, clients)
  {
    hide Settled, Keeps;
    forall c: nat, command: nat | AskedOf(clients, c, command) && clients[c][command].done.Some?
      ensures clients[c][command].done.value > 0 && Settled(z, clients, command, clients[c][command].done.value - 1)
    {
      SettledStill(y, z, clients, clients, command, clients[c][command].done.value - 1, clients[c][command].done.value - 1);
    }
  }

  /** Whatever a replica holds committed has settled by now. */
  lemma SettledNow(y: System, clients: Asked, i: nat, at: nat, command: nat, askers: seq<Asker>, now: nat)
    requires Grounded(y, clients) && OwnCommands(clients) && SentOk(clients, askers, now) && i < |y.replicas|
    requires at <= y.replicas[i].commit && OpAt(y.replicas[i].log, at) == Some(Command(command))
    ensures Settled(y, clients, command, now)
  {
    hide Grounded, SentBy;
    CommittedApplied(y, clients, i, at);
    forall q | 0 <= q <= at - 1 && y.replicas[i].applied[q].Command?
      ensures SentBy(clients, y.replicas[i].applied[q].command, now)
    {
      AppliedAt(y, clients, i, q);
      SentByNow(clients, y.replicas[i].applied[q].command, askers, now);
    }
    assert SettledAt(y, clients, command, now, i, at - 1);
  }

  lemma CommittedApplied(y: System, clients: Asked, i: nat, at: nat)
    requires Grounded(y, clients) && i < |y.replicas| && 1 <= at <= y.replicas[i].commit
    ensures at <= |y.replicas[i].applied| && at <= |y.replicas[i].log|
    ensures y.replicas[i].applied[at - 1] == y.replicas[i].log[at - 1].op
  {
    hide Inv, ReplicaOk, AllKnown, AllOnce, Committed, FromLeaders, UpTo, Past, VoterOk, LeaderOk, KnowsOk, HoldsOne, Commands;
    OkAt(y, i);
    PastOf(y.history, y.replicas[i], i);
  }

  lemma SentByNow(clients: Asked, command: nat, askers: seq<Asker>, now: nat)
    requires OwnCommands(clients) && SentOk(clients, askers, now) && command in Commands(clients)
    ensures SentBy(clients, command, now)
  {
    AskedBySome(clients, command);
    var c: nat :| AskedOf(clients, c, command);
    assert clients[c][command].sent <= now;
  }

  // ---------------------------------------------------------------------------------------------
  // Every act

  ghost predicate AllPromised(views: seq<View>) {
    forall k :: 0 <= k < |views| ==> Promised(views[k])
  }

  /** A replica's step: whatever is written within it keeps the promises, and so does what it comes to. */
  lemma StepWrites(view: View, y: System, step: Step)
    requires Sound(view, y) && Enabled(y, step) && (step.Client? ==> step.command in Commands(view.clients))
    requires Actor(step) in view.replicas
    ensures AllPromised(Views(view, y, step))
    ensures Sound(Latest(view, Views(view, y, step)), Next(y, step)) && Keeps(y, Next(y, step))
    ensures Latest(view, Views(view, y, step)).clients == view.clients
  {
    hide Noted, Grounded, Next, Enabled, Promised, DonesOk, OwnCommands, Keeps, Commands;
    var views, i := Views(view, y, step), Actor(step);
    forall k | 0 <= k < |views| ensures Promised(views[k]) {
      var z := Noted(y, step)[k];
      NotedGrounded(y, step, k, view.clients);
      WrittenSound(view, y, z, i);
      SoundPromised(views[k], z);
    }
    NextGrounded(y, step, view.clients);
    DonesStill(y, Next(y, step), view.clients);
    NothingUnwritten(y, step);
  }

  lemma WrittenSound(view: View, y: System, z: System, i: nat)
    requires Sound(view, y) && Grounded(z, view.clients) && Keeps(y, z) && OnlyMoves(y, z, i) && i < |y.replicas|
    ensures Sound(view.(replicas := view.replicas[i := Rec(z.replicas[i])]), z)
  {
    hide Grounded, DonesOk, OwnCommands, Keeps;
    DonesStill(y, z, view.clients);
  }

  lemma MovesOk(w: Whole, step: Step)
    requires WholeOk(w) && Possible(w, Moves(step))
    ensures WholeOk(After(w, Moves(step))) && AllPromised(Writes(w, Moves(step)))
  {
    hide Sound, AnswersOk, SentOk, AsksOk, Views, Next, Enabled, AllPromised, Latest, Keeps;
    var i, z := Actor(step), Next(w.y, step);
    ViewClients(w);
    ActorIsOne(w.y, step);
    StepWrites(w.view, w.y, step);
    SameMany(w.y, z);
    AnswersStill(w.y, z, w.view.clients, w.view.clients, w.answers, w.now, w.now);
    var latest := Latest(w.view, Views(w.view, w.y, step));
    OwedSettled(w, step, latest);
    BothOk(z, w.view.clients, w.answers, Answering(w.y, step, w.pending[i], w.now).0, w.now);
  }

  lemma ActorIsOne(y: System, step: Step)
    requires Enabled(y, step)
    ensures Actor(step) < |y.replicas|
  {}

  lemma ViewClients(w: Whole)
    requires WholeOk(w)
    ensures Sound(w.view, w.y) && |w.pending| == |w.y.replicas| && AnswersOk(w.y, w.view.clients, w.answers, w.now)
    ensures SentOk(w.view.clients, w.askers, w.now) && AsksOk(w.view.clients, w.asks) && Remembers(w.view.clients, w.view.clients)
  {}

  lemma SameMany(y: System, z: System)
    requires Keeps(y, z)
    ensures |z.replicas| == |y.replicas|
  {}

  lemma BothOk(y: System, clients: Asked, some: set<Submitted>, more: set<Submitted>, now: nat)
    requires AnswersOk(y, clients, some, now) && AnswersOk(y, clients, more, now)
    ensures AnswersOk(y, clients, some + more, now)
  {
    hide Settled;
  }

  /** What a leader tells the clients it owes has settled. */
  lemma OwedSettled(w: Whole, step: Step, latest: View)
    requires Possible(w, Moves(step)) && SentOk(w.view.clients, w.askers, w.now)
    requires Sound(latest, Next(w.y, step)) && latest.clients == w.view.clients
    requires |Next(w.y, step).replicas| == |w.y.replicas|
    ensures AnswersOk(Next(w.y, step), w.view.clients, Answering(w.y, step, w.pending[Actor(step)], w.now).0, w.now)
  {
    hide SentOk, Next, Enabled, Grounded, DonesOk, OwnCommands, Settled, OpAt, Matches;
    ActorIsOne(w.y, step);
    var z, told := Next(w.y, step), Answering(w.y, step, w.pending[Actor(step)], w.now).0;
    forall a | a in told && a.answer == Done ensures a.at <= w.now && Settled(z, w.view.clients, a.command, a.at) {
      var i := step.packet.dest;
      var owed := OwedInTerm(w.y.replicas[i], step.packet.message, w.pending[i]);
      var at :| at in owed && at <= z.replicas[i].commit && OpAt(z.replicas[i].log, at) == Some(Command(owed[at].1))
                && a == Submitted(owed[at].0, owed[at].1, Done, w.now);
      SettledNow(z, w.view.clients, i, at, a.command, w.askers, w.now);
    }
  }

  lemma ReachesOk(w: Whole, ask: Asking)
    requires WholeOk(w) && Possible(w, Reaches(ask))
    ensures WholeOk(After(w, Reaches(ask))) && AllPromised(Writes(w, Reaches(ask)))
  {
    hide Sound, AnswersOk, SentOk, Views, Next, AllPromised, Latest, Keeps;
    var step := Client(ask.dest, ask.command);
    var z := Next(w.y, step);
    ViewClients(w);
    StepWrites(w.view, w.y, step);
    TakingsSettled(w, ask);
    var told := Takings(w.y.replicas[ask.dest], ask, w.pending[ask.dest], w.now).0;
    BothOk(w.y, w.view.clients, w.answers, told, w.now);
    AnswersStill(w.y, z, w.view.clients, w.view.clients, w.answers + told, w.now, w.now);
    SameMany(w.y, z);
  }

  /** A leader that answers a command at once has it committed. */
  lemma TakingsSettled(w: Whole, ask: Asking)
    requires Sound(w.view, w.y) && SentOk(w.view.clients, w.askers, w.now) && Possible(w, Reaches(ask))
    ensures AnswersOk(w.y, w.view.clients, Takings(w.y.replicas[ask.dest], ask, w.pending[ask.dest], w.now).0, w.now)
  {
    hide SentOk, Grounded, DonesOk, OwnCommands, Settled, OpAt, Matches;
    var r := w.y.replicas[ask.dest];
    var at := HeldAt(r.log, ask.command);
    if at.Some? && at.value <= r.commit {
      SettledNow(w.y, w.view.clients, ask.dest, at.value, ask.command, w.askers, w.now);
    }
  }

  lemma BeginsOk(w: Whole, i: nat)
    requires WholeOk(w) && Possible(w, Begins(i))
    ensures WholeOk(After(w, Begins(i))) && AllPromised(Writes(w, Begins(i)))
  {
    hide Grounded, DonesOk, OwnCommands, AnswersOk, SentOk, AsksOk, Promised;
    SoundPromised(After(w, Begins(i)).view, w.y);
  }

  lemma PassesOk(w: Whole, time: nat)
    requires WholeOk(w)
    ensures WholeOk(w.(now := w.now + time))
  {
    hide Sound, Settled, AsksOk;
    AnswersStill(w.y, w.y, w.view.clients, w.view.clients, w.answers, w.now, w.now + time);
  }

  // ---------------------------------------------------------------------------------------------
  // Clients

  /** A command of a round not begun is new. */
  lemma SentIsNew(clients: Asked, askers: seq<Asker>, c: nat, now: nat)
    requires OwnCommands(clients) && SentOk(clients, askers, now) && c < CLIENTS
    ensures var command := Numbered(askers[c].round + 1, c);
            var sent := SentNow(clients, c, command, now);
            && !AskedOf(clients, c, command) && Remembers(clients, sent) && OwnCommands(sent)
            && SentOk(sent, askers[c := Asker(askers[c].round + 1, true)], now)
  {
    hide Owns;
    NumberedIsOwn(askers[c].round + 1, c);
  }

  lemma NumberedIsOwn(round: nat, c: nat)
    requires round > 0 && c < CLIENTS
    ensures Owns(c, Numbered(round, c))
  {}

  lemma CommandsGrow(a: Asked, b: Asked)
    requires Remembers(a, b)
    ensures Commands(a) <= Commands(b)
  {}

  lemma GroundedStill(y: System, a: Asked, b: Asked)
    requires Grounded(y, a) && Remembers(a, b)
    ensures Grounded(y, b)
  {
    hide Inv, AllOnce, AllKnown, NoneForwarded, Remembers, Commands;
    CommandsGrow(a, b);
    KnownLater(y.history, Commands(a), Commands(b));
  }

  /** What was done was done before, but for what was done just now. */
  predicate NewlyDone(a: Asked, b: Asked, client: nat, command: nat, now: nat) {
    forall c, n :: c in b && n in b[c] && b[c][n].done.Some? ==>
      (c in a && n in a[c] && a[c][n].done == b[c][n].done) || (c == client && n == command && b[c][n].done.value == now)
  }

  lemma ClientsSound(v: View, y: System, b: Asked, client: nat, command: nat, now: nat)
    requires Sound(v, y) && Remembers(v.clients, b) && OwnCommands(b) && NewlyDone(v.clients, b, client, command, now)
    requires (now > 0 && Settled(y, v.clients, command, now - 1)) || !AskedOf(b, client, command) || b[client][command].done.None?
    ensures Sound(v.(clients := b), y)
  {
    hide Grounded, Settled, OwnCommands, Remembers;
    var a := v.clients;
    GroundedStill(y, a, b);
    forall c: nat, n: nat | AskedOf(b, c, n) && b[c][n].done.Some?
      ensures b[c][n].done.value > 0 && Settled(y, b, n, b[c][n].done.value - 1)
    {
      var due := b[c][n].done.value - 1;
      if AskedOf(a, c, n) && a[c][n].done == b[c][n].done {
        SettledStill(y, y, a, b, n, due, due);
      } else {
        SettledStill(y, y, a, b, n, now - 1, now - 1);
      }
    }
  }

  lemma SendsOk(w: Whole, c: nat)
    requires WholeOk(w) && Possible(w, Sends(c))
    ensures WholeOk(After(w, Sends(c))) && AllPromised(Writes(w, Sends(c)))
  {
    hide Sound, AnswersOk, OwnCommands, SentOk, Remembers, Promised, SentNow;
    var command := Numbered(w.askers[c].round + 1, c);
    var sent := SentNow(w.view.clients, c, command, w.now);
    InView(w);
    ThreeAskers(w);
    SentIsNew(w.view.clients, w.askers, c, w.now);
    SentNotDone(w.view.clients, c, command, w.now);
    ClientsSound(w.view, w.y, sent, c, command, w.now);
    SoundPromised(w.view.(clients := sent), w.y);
    AnswersStill(w.y, w.y, w.view.clients, sent, w.answers, w.now, w.now);
    AsksStill(w.view.clients, sent, w.asks);
  }

  lemma InView(w: Whole)
    requires WholeOk(w)
    ensures OwnCommands(w.view.clients)
  {}

  lemma ThreeAskers(w: Whole)
    requires WholeOk(w)
    ensures |w.askers| == CLIENTS
  {}

  lemma SentNotDone(clients: Asked, c: nat, command: nat, now: nat)
    requires !AskedOf(clients, c, command)
    ensures var sent := SentNow(clients, c, command, now);
            NewlyDone(clients, sent, c, command, now) && AskedOf(sent, c, command) && sent[c][command].done.None?
  {}

  lemma AsksStill(a: Asked, b: Asked, asks: set<Asking>)
    requires AsksOk(a, asks) && Remembers(a, b)
    ensures AsksOk(b, asks)
  {
    hide Commands, Remembers;
    CommandsGrow(a, b);
  }

  lemma AsksAgainOk(w: Whole, c: nat, dest: nat)
    requires WholeOk(w) && Possible(w, Asks(c, dest))
    ensures WholeOk(After(w, Asks(c, dest))) && AllPromised(Writes(w, Asks(c, dest)))
  {
    hide Sound, AnswersOk, Promised;
    var command := Numbered(w.askers[c].round, c);
    assert AskedOf(w.view.clients, c, command);
    assert command in Commands(w.view.clients);
  }

  lemma HearsOk(w: Whole, a: Submitted)
    requires WholeOk(w) && Possible(w, Hears(a))
    ensures WholeOk(After(w, Hears(a))) && AllPromised(Writes(w, Hears(a)))
  {
    hide Sound, AnswersOk, OwnCommands, Remembers, Promised, DoneNow, AsksOk, Settled, NewlyDone;
    var done := DoneNow(w.view.clients, a.client, a.command, w.now);
    InView(w);
    DoneIsSent(w.view.clients, a.client, a.command, w.askers, w.now);
    DoneWasSettled(w, a);
    SettledStill(w.y, w.y, w.view.clients, w.view.clients, a.command, a.at, w.now - 1);
    ClientsSound(w.view, w.y, done, a.client, a.command, w.now);
    SoundPromised(w.view.(clients := done), w.y);
    AnswersStill(w.y, w.y, w.view.clients, done, w.answers, w.now, w.now);
    AsksStill(w.view.clients, done, w.asks);
    SentOkRounds(done, w.askers, a.client, w.now);
  }

  lemma DoneIsSent(clients: Asked, c: nat, command: nat, askers: seq<Asker>, now: nat)
    requires OwnCommands(clients) && SentOk(clients, askers, now)
    ensures var done := DoneNow(clients, c, command, now);
            && Remembers(clients, clients) && Remembers(clients, done) && OwnCommands(done)
            && SentOk(done, askers, now) && NewlyDone(clients, done, c, command, now)
  {
    hide Owns;
  }

  lemma DoneWasSettled(w: Whole, a: Submitted)
    requires WholeOk(w) && Possible(w, Hears(a))
    ensures a.at <= w.now - 1 && Settled(w.y, w.view.clients, a.command, a.at)
  {}

  lemma SentOkRounds(clients: Asked, askers: seq<Asker>, c: nat, now: nat)
    requires SentOk(clients, askers, now) && c < |askers|
    ensures SentOk(clients, askers[c := askers[c].(waiting := false)], now)
  {}

  // ---------------------------------------------------------------------------------------------
  // The verdict

  lemma OpeningOk()
    ensures WholeOk(Opening())
  {
    hide Inv;
    StartInv();
    NothingKnown(Commands(map[]));
  }

  /** Every act keeps what the verdict rests on, and every view it writes keeps the three promises. */
  lemma ActOk(w: Whole, act: Act)
    requires WholeOk(w) && Possible(w, act)
    ensures WholeOk(After(w, act)) && AllPromised(Writes(w, act))
  {
    hide WholeOk, Possible, AllPromised;
    match act
    case Passes(time) => PassesOk(w, time); PassesWrites(w, time);
    case Begins(i) => BeginsOk(w, i);
    case Moves(step) => MovesOk(w, step);
    case Reaches(ask) => ReachesOk(w, ask);
    case Sends(c) => SendsOk(w, c);
    case Asks(c, dest) => AsksAgainOk(w, c, dest);
    case Hears(a) => HearsOk(w, a);
  }

  lemma PassesWrites(w: Whole, time: nat)
    requires Possible(w, Passes(time))
    ensures After(w, Passes(time)) == w.(now := w.now + time) && AllPromised(Writes(w, Passes(time)))
  {}

  lemma {:induction false} RunOk(ws: seq<Whole>, acts: seq<Act>, k: nat)
    requires RunsOn(ws, acts) && k < |ws|
    ensures WholeOk(ws[k])
  {
    hide WholeOk, Possible, After;
    if k == 0 {
      OpeningOk();
    } else {
      RunOk(ws, acts, k - 1);
      ActOk(ws[k - 1], acts[k - 1]);
    }
  }

  /** In every run, whatever is dropped, delayed, repeated or asked again, every view written down keeps the
      three safety promises: one leader to a term, no committed entry changed, and an order of commands every
      client could have seen. */
  lemma EveryViewPromised(ws: seq<Whole>, acts: seq<Act>, k: nat, n: nat)
    requires RunsOn(ws, acts) && k < |acts| && n < |Writes(ws[k], acts[k])|
    ensures Promised(Writes(ws[k], acts[k])[n])
  {
    hide WholeOk, Possible, After, Promised, Writes;
    RunOk(ws, acts, k);
    ActOk(ws[k], acts[k]);
  }
}
