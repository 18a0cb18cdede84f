/** The verdict on a run of the replicated log: every view the run writes down, of replicas and clients, keeps
    the three safety promises the run is judged by. */
module ReplogVerdict {
  import opened Replog
  import opened ReplogClients
  import opened ReplogInv
  import opened ReplogOrder
  import opened ReplogSafe
  import opened ReplogSafety
  import opened ReplogSteps

  // ---------------------------------------------------------------------------------------------
  // The promises, of a view

  /** No two replicas led one term. */
  predicate OneLeader(v: View) {
    forall i, j, t :: i in v.replicas && j in v.replicas && t in v.replicas[i].led && t in v.replicas[j].led ==> i == j
  }

  /** What two replicas applied at one place is one thing, and each still has it in its log. */
  predicate CommittedHold(v: View) {
    forall i, j :: i in v.replicas && j in v.replicas ==>
      StillHolds(v.replicas[i].log, v.replicas[i].applied) && AppliedAlike(v.replicas[i].applied, v.replicas[j].applied)
  }

  predicate StillHolds(log: Log, applied: seq<Op>) {
    forall at :: 0 <= at < |applied| ==> at < |log| && log[at].op == applied[at]
  }

  predicate AppliedAlike(a: seq<Op>, b: seq<Op>) {
    forall at :: 0 <= at < |a| && at < |b| ==> a[at] == b[at]
  }

  predicate AskedOf(clients: Asked, c: nat, command: nat) {
    c in clients && command in clients[c]
  }

  /** `e` heard its command was done by the instant `c` first sent its own. */
  predicate DoneBySent(clients: Asked, e: nat, earlier: nat, c: nat, command: nat) {
    AskedOf(clients, e, earlier) && AskedOf(clients, c, command)
    && clients[e][earlier].done.Some? && clients[e][earlier].done.value <= clients[c][command].sent
  }

  /** Each command applied at most once. */
  predicate AppliesOnce(applied: seq<Op>) {
    forall a, b :: 0 <= a < b < |applied| && applied[a].Command? ==> applied[a] != applied[b]
  }

  /** Only commands some client sent. */
  ghost predicate AppliesAsked(clients: Asked, applied: seq<Op>) {
    forall at :: 0 <= at < |applied| && applied[at].Command? ==> exists c: nat :: AskedOf(clients, c, applied[at].command)
  }

  /** And none ahead of one that was done by the time it was sent. */
  ghost predicate AppliesInOrder(clients: Asked, applied: seq<Op>) {
    forall at: nat, c: nat, e: nat, earlier: nat ::
      at < |applied| && applied[at].Command? && DoneBySent(clients, e, earlier, c, applied[at].command) ==>
        Command(earlier) in applied[..at]
  }

  /** Whatever a replica applied, it applied in an order no client saw otherwise. */
  ghost predicate Linearizable(v: View) {
    forall i :: i in v.replicas ==>
      && AppliesOnce(v.replicas[i].applied) && AppliesAsked(v.clients, v.replicas[i].applied)
      && AppliesInOrder(v.clients, v.replicas[i].applied)
  }

  ghost predicate Promised(v: View) {
    OneLeader(v) && CommittedHold(v) && Linearizable(v)
  }

  // ---------------------------------------------------------------------------------------------
  // What a run keeps

  function Commands(clients: Asked): set<nat> {
    set c, command | c in clients && command in clients[c] :: command
  }

  /** What is so of the replicas, and of what they were asked, at every moment. */
  ghost predicate Grounded(y: System, clients: Asked) {
    Inv(y) && AllOnce(y.history) && AllKnown(y.history, Commands(clients)) && NoneForwarded(y.sent)
  }

  /** First sent by some client at an instant no later than `by`. */
  ghost predicate SentBy(clients: Asked, command: nat, due: nat) {
    exists c: nat :: AskedOf(clients, c, command) && clients[c][command].sent <= due
  }

  /** A replica has applied the command, and everything it applied up to it was sent by an instant. */
  ghost predicate SettledAt(y: System, clients: Asked, command: nat, due: nat, j: nat, p: nat) {
    && j < |y.replicas| && p < |y.replicas[j].applied| && y.replicas[j].applied[p] == Command(command)
    && forall q :: 0 <= q <= p && y.replicas[j].applied[q].Command? ==> SentBy(clients, y.replicas[j].applied[q].command, due)
  }

  ghost predicate Settled(y: System, clients: Asked, command: nat, due: nat) {
    exists j: nat, p: nat :: SettledAt(y, clients, command, due, j, p)
  }

  /** A command answered as done had settled by the time the answer set out. */
  ghost predicate AnswersOk(y: System, clients: Asked, answers: set<Submitted>, now: nat) {
    forall a :: a in answers && a.answer == Done ==> a.at <= now && Settled(y, clients, a.command, a.at)
  }

  /** And a command heard to be done had settled before it was heard. */
  ghost predicate DonesOk(y: System, clients: Asked) {
    forall c: nat, command: nat :: AskedOf(clients, c, command) && clients[c][command].done.Some? ==>
      clients[c][command].done.value > 0 && Settled(y, clients, command, clients[c][command].done.value - 1)
  }

  /** Whether a command is one of a client's. */
  predicate Owns(c: nat, command: nat) {
    c < CLIENTS && command > 0 && (command - 1) % CLIENTS == c
  }

  /** No command is two clients'. */
  ghost predicate OwnCommands(clients: Asked) {
    forall c: nat, command: nat :: AskedOf(clients, c, command) ==> Owns(c, command)
  }

  /** Nothing was sent later than now, or in a round not begun; and a client waits for what it has sent. */
  ghost predicate SentOk(clients: Asked, askers: seq<Asker>, now: nat) {
    |askers| == CLIENTS
    && (forall c: nat, command: nat :: AskedOf(clients, c, command) && c < CLIENTS ==>
          command < Numbered(askers[c].round + 1, c) && clients[c][command].sent <= now)
    && (forall c :: 0 <= c < |askers| && askers[c].waiting ==>
          askers[c].round > 0 && AskedOf(clients, c, Numbered(askers[c].round, c)))
  }

  /** What was written of each replica is what it holds. */
  predicate Matches(v: View, y: System) {
    forall i :: i in v.replicas ==> i < |y.replicas| && v.replicas[i] == Rec(y.replicas[i])
  }

  ghost predicate AsksOk(clients: Asked, asks: set<Asking>) {
    forall a :: a in asks ==> a.command in Commands(clients)
  }

  /** All that a view written down at `y` needs to keep the promises. */
  ghost predicate Sound(v: View, y: System) {
    Grounded(y, v.clients) && DonesOk(y, v.clients) && OwnCommands(v.clients) && Matches(v, y)
  }

  ghost predicate WholeOk(w: Whole) {
    && Sound(w.view, w.y) && |w.pending| == |w.y.replicas|
    && AnswersOk(w.y, w.view.clients, w.answers, w.now)
    && SentOk(w.view.clients, w.askers, w.now) && AsksOk(w.view.clients, w.asks)
  }

  // ---------------------------------------------------------------------------------------------
  // A sound view keeps the promises

  lemma AppliedAt(y: System, clients: Asked, i: nat, at: nat)
    requires Grounded(y, clients) && i < |y.replicas| && at < |y.replicas[i].applied|
    ensures var r := y.replicas[i];
            && |r.applied| == r.commit <= |r.log| && r.applied[at] == r.log[at].op
            && (r.applied[at].Command? ==> r.applied[at].command in Commands(clients))
  {
    hide Inv, ReplicaOk, AllKnown, AllOnce, Committed, FromLeaders, UpTo, Past, VoterOk, LeaderOk, KnowsOk, HoldsOne, Commands;
    ReplicaKnown(y, i, Commands(clients));
    OkAt(y, i);
    PastOf(y.history, y.replicas[i], i);
  }

  lemma OneLeaderOf(v: View, y: System)
    requires Sound(v, y)
    ensures OneLeader(v)
  {
    hide Inv, ReplicaOk, DonesOk, AllOnce, AllKnown, NoneForwarded;
    forall i, j, t | i in v.replicas && j in v.replicas && t in v.replicas[i].led && t in v.replicas[j].led ensures i == j {
      LedOnce(y, i, j, t);
    }
  }

  lemma LedOnce(y: System, i: nat, j: nat, t: nat)
    requires Inv(y) && i < |y.replicas| && j < |y.replicas| && t in y.replicas[i].led && t in y.replicas[j].led
    ensures i == j
  {
    hide Inv;
    OkAt(y, i);
    OkAt(y, j);
  }

  lemma CommittedHoldOf(v: View, y: System)
    requires Sound(v, y)
    ensures CommittedHold(v)
  {
    hide Inv, AllOnce, AllKnown, NoneForwarded, DonesOk, StillHolds, AppliedAlike;
    forall i, j | i in v.replicas && j in v.replicas
      ensures StillHolds(v.replicas[i].log, v.replicas[i].applied) && AppliedAlike(v.replicas[i].applied, v.replicas[j].applied)
    {
      StillHoldsOf(y, v.clients, i);
      AppliedAlikeOf(y, i, j);
    }
  }

  lemma StillHoldsOf(y: System, clients: Asked, i: nat)
    requires Grounded(y, clients) && i < |y.replicas|
    ensures StillHolds(y.replicas[i].log, y.replicas[i].applied)
  {
    hide Inv, ReplicaOk, StillHolds, Committed, FromLeaders, UpTo, Past, VoterOk, LeaderOk, KnowsOk, HoldsOne, AllOnce, AllKnown, Ops;
    OkAt(y, i);
    PastOf(y.history, y.replicas[i], i);
    OpsHeld(y.replicas[i].log, y.replicas[i].commit);
  }

  lemma OpsHeld(log: Log, n: nat)
    requires n <= |log|
    ensures StillHolds(log, Ops(log[..n]))
  {}

  lemma AppliedAlikeOf(y: System, i: nat, j: nat)
    requires Inv(y) && i < |y.replicas| && j < |y.replicas|
    ensures AppliedAlike(y.replicas[i].applied, y.replicas[j].applied)
  {
    hide Inv;
    AgreeIn(y, i, j);
  }

  lemma AgreeAt(y: System, clients: Asked, i: nat, j: nat, at: nat)
    requires Grounded(y, clients) && i < |y.replicas| && j < |y.replicas|
    requires at < |y.replicas[i].applied| && at < |y.replicas[j].applied|
    ensures y.replicas[i].applied[at] == y.replicas[j].applied[at]
  {
    hide Inv, AllOnce, AllKnown, NoneForwarded;
    AppliedAlikeOf(y, i, j);
  }

  /** A command done before another was sent is applied before it. */
  lemma DoneComesFirst(y: System, clients: Asked, i: nat, at: nat, c: nat, e: nat, earlier: nat)
    requires Grounded(y, clients) && DonesOk(y, clients) && OwnCommands(clients) && i < |y.replicas|
    requires at < |y.replicas[i].applied| && y.replicas[i].applied[at].Command?
    requires DoneBySent(clients, e, earlier, c, y.replicas[i].applied[at].command)
    ensures Command(earlier) in y.replicas[i].applied[..at]
  {
    hide Grounded, SentBy;
    var applied := y.replicas[i].applied;
    var due := clients[e][earlier].done.value - 1;
    var j: nat, p: nat :| SettledAt(y, clients, earlier, due, j, p);
    if at <= p {
      AgreeAt(y, clients, i, j, at);
      NotSentBy(clients, c, applied[at].command, due);
      assert false;
    } else {
      AgreeAt(y, clients, i, j, p);
      assert applied[..at][p] == Command(earlier);
    }
  }

  lemma NotSentBy(clients: Asked, c: nat, command: nat, due: nat)
    requires OwnCommands(clients) && AskedOf(clients, c, command) && due < clients[c][command].sent
    ensures !SentBy(clients, command, due)
  {}

  lemma LinearizableOf(v: View, y: System)
    requires Sound(v, y)
    ensures Linearizable(v)
  {
    hide Grounded, DonesOk, OwnCommands, DoneBySent;
    forall i | i in v.replicas
      ensures AppliesOnce(v.replicas[i].applied) && AppliesAsked(v.clients, v.replicas[i].applied)
              && AppliesInOrder(v.clients, v.replicas[i].applied)
    {
      OnceOf(y, v.clients, i);
      forall at | 0 <= at < |v.replicas[i].applied| && v.replicas[i].applied[at].Command?
        ensures exists c: nat :: AskedOf(v.clients, c, v.replicas[i].applied[at].command)
      {
        AppliedAt(y, v.clients, i, at);
        AskedBySome(v.clients, v.replicas[i].applied[at].command);
      }
      forall at: nat, c: nat, e: nat, earlier: nat | at < |v.replicas[i].applied| && v.replicas[i].applied[at].Command?
                                 && DoneBySent(v.clients, e, earlier, c, v.replicas[i].applied[at].command)
        ensures Command(earlier) in v.replicas[i].applied[..at]
      {
        DoneComesFirst(y, v.clients, i, at, c, e, earlier);
      }
    }
  }

  lemma AskedBySome(clients: Asked, command: nat)
    requires command in Commands(clients)
    ensures exists c: nat :: AskedOf(clients, c, command)
  {
    var c: nat :| c in clients && command in clients[c];
    assert AskedOf(clients, c, command);
  }

  lemma OnceOf(y: System, clients: Asked, i: nat)
    requires Grounded(y, clients) && i < |y.replicas|
    ensures AppliesOnce(y.replicas[i].applied)
  {
    hide Inv, AllOnce, ReplicaOk, AllKnown, Committed, FromLeaders, UpTo, Past, VoterOk, LeaderOk, KnowsOk, HoldsOne;
    ReplicaOnce(y, i);
    OkAt(y, i);
    PastOf(y.history, y.replicas[i], i);
  }

  lemma SoundPromised(v: View, y: System)
    requires Sound(v, y)
    ensures Promised(v)
  {
    hide Sound, OneLeader, CommittedHold, Linearizable;
    OneLeaderOf(v, y);
    CommittedHoldOf(v, y);
    LinearizableOf(v, y);
  }
}
