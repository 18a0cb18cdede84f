/** Every step of the replicated log keeps every invariant of it, and what that comes to: one leader a term,
    logs that agree where they meet, and nothing applied that is ever applied otherwise. */
module ReplogSafe {
  import opened Replog
  import opened ReplogInv
  import opened Wrappers

  // ---------------------------------------------------------------------------------------------
  // A step that leaves the history alone

  /** One replica moves, and nothing it moved to is at odds with what happened. */
  lemma MovesOn(y: System, i: nat, q: Replica)
    requires Inv(y) && i < |y.replicas| && ReplicaOk(y.history, q, i)
    ensures Inv(Set(y, i, q))
  {
    hide ReplicaOk, MessageOk, Coherent;
  }

  lemma Sends(y: System, packets: set<Packet>)
    requires Inv(y) && forall p :: p in packets ==> MessageOk(y.history, p)
    ensures Inv(Sending(y, packets))
  {
    hide ReplicasOk, Coherent, MessageOk;
  }

  /** Only what no invariant speaks of has changed. */
  lemma QuietOk(h: History, r: Replica, i: nat, leader: Option<nat>, prevotes: set<nat>)
    requires ReplicaOk(h, r, i)
    ensures ReplicaOk(h, r.(leader := leader, prevotes := prevotes), i)
  {
    hide FromLeaders, UpTo, Same, Acked, Lost, Committed;
  }

  lemma QuietInv(y: System, i: nat, leader: Option<nat>, prevotes: set<nat>)
    requires Inv(y) && i < |y.replicas|
    ensures Inv(Set(y, i, y.replicas[i].(leader := leader, prevotes := prevotes)))
  {
    hide ReplicaOk, MessagesOk, Coherent;
    QuietOk(y.history, y.replicas[i], i, leader, prevotes);
    MovesOn(y, i, y.replicas[i].(leader := leader, prevotes := prevotes));
  }

  lemma LostLater(h: History, t: nat, n: nat, end: nat, later: nat)
    requires t in h.logs && Lost(h, t, n, end) && end <= later
    ensures Lost(h, t, n, later)
  {}

  lemma HoldsLater(h: History, r: Replica, q: Replica, i: nat)
    requires HoldsOne(h, r, i) && q.log == r.log && q.term >= r.term
    ensures HoldsOne(h, q, i)
  {
    forall t: nat, n: nat | Acked(h, i, t, n) ensures Same(q.log, h.logs[t], n) || Lost(h, t, n, q.term + 1) {
      if Lost(h, t, n, r.term + 1) { LostLater(h, t, n, r.term + 1, q.term + 1); }
    }
  }

  lemma CommittedLater(h: History, end: nat, later: nat, k: nat, log: Log)
    requires Committed(h, end, k, log) && end <= later
    ensures Committed(h, later, k, log)
  {}

  /** A replica's log, and what it agreed to, are what they were: only its term, role and counts move. */
  lemma SameLogOk(h: History, r: Replica, q: Replica, i: nat)
    requires ReplicaOk(h, r, i) && q.log == r.log && q.commit == r.commit && q.applied == r.applied && q.term >= r.term
    requires Past(h, q, i) && VoterOk(h, q, i) && LeaderOk(h, q, i) && KnowsOk(h, q, i)
    ensures ReplicaOk(h, q, i)
  {
    HoldsLater(h, r, q, i);
    CommittedLater(h, r.term, q.term, r.commit, r.log);
    assert UpTo(q.log, q.term);
    hide FromLeaders, UpTo, HoldsOne, Committed, Past, VoterOk, LeaderOk, KnowsOk;
  }

  lemma AdoptInv(y: System, i: nat, term: nat)
    requires Inv(y) && i < |y.replicas| && term > y.replicas[i].term
    ensures Inv(Adopt(y, i, term))
  {
    hide FromLeaders, UpTo, HoldsOne, CommitOk, MessagesOk, Coherent;
    assert ReplicaOk(y.history, y.replicas[i], i);
    SameLogOk(y.history, y.replicas[i], Adopt(y, i, term).replicas[i], i);
    MovesOn(y, i, Adopt(y, i, term).replicas[i]);
  }

  lemma HeedsInv(y: System, i: nat, leader: nat)
    requires Inv(y) && i < |y.replicas| && y.replicas[i].role != Leader
    ensures Inv(Set(y, i, Heeds(y.replicas[i], leader)))
  {
    hide FromLeaders, UpTo, HoldsOne, CommitOk, MessagesOk, Coherent;
    assert ReplicaOk(y.history, y.replicas[i], i);
    SameLogOk(y.history, y.replicas[i], Heeds(y.replicas[i], leader), i);
    MovesOn(y, i, Heeds(y.replicas[i], leader));
  }

  lemma CountInv(y: System, i: nat, voter: nat)
    requires Inv(y) && i < |y.replicas| && y.replicas[i].role == Candidate && voter < REPLICAS
    requires var r := y.replicas[i];
             (voter, r.term) in y.history.voted && y.history.voted[(voter, r.term)] == i
    ensures Inv(Set(y, i, y.replicas[i].(votes := y.replicas[i].votes + {voter})))
  {
    hide FromLeaders, UpTo, HoldsOne, CommitOk, MessagesOk, Coherent;
    var q := y.replicas[i].(votes := y.replicas[i].votes + {voter});
    assert ReplicaOk(y.history, y.replicas[i], i);
    SameLogOk(y.history, y.replicas[i], q, i);
    MovesOn(y, i, q);
  }

  /** Applying on from where a replica had got to applies exactly what is now committed. */
  lemma Applies(r: Replica, reached: nat)
    requires r.commit <= reached <= |r.log| && r.applied == Ops(r.log[..r.commit])
    ensures r.applied + Ops(r.log[Min(|r.applied|, reached)..reached]) == Ops(r.log[..reached])
  {}

  lemma OkAt(y: System, i: nat)
    requires Inv(y) && i < |y.replicas|
    ensures ReplicaOk(y.history, y.replicas[i], i)
  {
    hide ReplicaOk, MessagesOk, Coherent;
  }

  lemma CommitToOk(h: History, r: Replica, i: nat, reached: nat, q: Replica)
    requires ReplicaOk(h, r, i) && r.commit <= reached <= |r.log| && Committed(h, r.term, reached, r.log)
    requires q == r.(commit := reached, applied := r.applied + Ops(r.log[Min(|r.applied|, reached)..reached]))
    ensures ReplicaOk(h, q, i)
  {
    hide FromLeaders, UpTo, Committed, Ops, HoldsOne;
    Applies(r, reached);
    HoldsLater(h, r, q, i);
  }

  lemma CommitInv(y: System, i: nat, reached: nat)
    requires Inv(y) && i < |y.replicas|
    requires y.replicas[i].commit <= reached <= |y.replicas[i].log|
    requires Committed(y.history, y.replicas[i].term, reached, y.replicas[i].log)
    ensures Inv(CommitTo(y, i, reached))
  {
    hide Inv, ReplicaOk, Committed, Ops;
    var q := CommitTo(y, i, reached).replicas[i];
    OkAt(y, i);
    CommitToOk(y.history, y.replicas[i], i, reached, q);
    MovesOn(y, i, q);
  }

  lemma ToldKnows(h: History, r: Replica, i: nat, follower: nat, matched: Option<nat>, q: Replica)
    requires KnowsOk(h, r, i) && LeaderOk(h, r, i) && AcksCoherent(h) && r.role == Leader
    requires follower < |r.next| && follower < |r.matched|
    requires matched.Some? ==> (follower, r.term) in h.acked && matched.value <= h.acked[(follower, r.term)]
    requires q == ToldReplica(r, follower, matched)
    ensures KnowsOk(h, q, i) && LeaderOk(h, q, i)
  {
    assert (follower, r.term) in h.acked ==> h.acked[(follower, r.term)] <= |r.log|;
  }

  lemma ToldInv(y: System, i: nat, follower: nat, matched: Option<nat>)
    requires Inv(y) && i < |y.replicas| && y.replicas[i].role == Leader
    requires follower < |y.replicas[i].next| && follower < |y.replicas[i].matched|
    requires matched.Some? ==> (follower, y.replicas[i].term) in y.history.acked
                               && matched.value <= y.history.acked[(follower, y.replicas[i].term)]
    ensures Inv(Told(y, i, follower, matched))
  {
    var r, h := y.replicas[i], y.history;
    var q := Told(y, i, follower, matched).replicas[i];
    hide Inv, ReplicaOk, AcksCoherent, LeaderOk, KnowsOk, Past, VoterOk;
    OkAt(y, i);
    AcksOf(y);
    ToldOk(h, r, i, follower, matched, q);
    MovesOn(y, i, q);
  }

  lemma AcksOf(y: System)
    requires Inv(y)
    ensures AcksCoherent(y.history)
  {}

  lemma ToldOk(h: History, r: Replica, i: nat, follower: nat, matched: Option<nat>, q: Replica)
    requires ReplicaOk(h, r, i) && AcksCoherent(h) && r.role == Leader
    requires follower < |r.next| && follower < |r.matched|
    requires matched.Some? ==> (follower, r.term) in h.acked && matched.value <= h.acked[(follower, r.term)]
    requires q == ToldReplica(r, follower, matched)
    ensures ReplicaOk(h, q, i)
  {
    hide FromLeaders, UpTo, HoldsOne, CommitOk, AcksCoherent, LeaderOk, KnowsOk;
    ToldKnows(h, r, i, follower, matched, q);
    SameLogOk(h, r, q, i);
  }

  // ---------------------------------------------------------------------------------------------
  // A step that adds to the history

  /** What one replica, in its term, may add: its own vote and the log it stands with, how far it agrees
      with the term's leader, and, leading, the term's log. */
  ghost predicate Adds(h: History, g: History, i: nat, term: nat) {
    && Grows(h, g)
    && (forall k: (nat, nat) :: k in g.acked && k != (i, term) ==> k in h.acked && g.acked[k] == h.acked[k])
    && (forall k: (nat, nat) :: k in g.voted && k != (i, term) ==> k in h.voted)
    && (forall k: (nat, nat) :: k in g.stood && k != (term, i) ==> k in h.stood)
    && (forall t :: t in g.logs && t != term ==> t in h.logs && g.logs[t] == h.logs[t])
    && (forall t :: t in g.leads && t != term ==> t in h.leads)
    && (forall t :: t in g.electors && t != term ==> t in h.electors)
    && (term in g.leads && term !in h.leads ==> g.leads[term] == i)
    && (term in g.logs && !(term in h.logs && g.logs[term] == h.logs[term]) ==> term in g.leads && g.leads[term] == i)
  }

  lemma OtherHolds(h: History, g: History, r: Replica, i: nat, term: nat, j: nat)
    requires Coherent(h) && Adds(h, g, i, term) && j != i && HoldsOne(h, r, j)
    ensures HoldsOne(g, r, j)
  {
    hide LogsCoherent, StoodCoherent, ElectionsCoherent, ByReplicas, Saw, Longer;
    forall t: nat, n: nat | Acked(g, j, t, n) ensures Same(r.log, g.logs[t], n) || Lost(g, t, n, r.term + 1) {
      assert (j, t) in h.acked;
      AckedStill(h, g, j, t, n);
      if Same(r.log, h.logs[t], n) {
        SameLonger(r.log, h.logs[t], g.logs[t], t, n);
      } else {
        LostGrows(h, g, t, n, r.term + 1, r.term + 1);
      }
    }
  }

  lemma OtherVoter(h: History, g: History, r: Replica, i: nat, term: nat, j: nat)
    requires ElectionsCoherent(h) && ElectionsCoherent(g) && Adds(h, g, i, term) && j != i
    requires Past(h, r, j) && VoterOk(h, r, j)
    ensures Past(g, r, j) && VoterOk(g, r, j)
  {
    hide Longer, Elected;
    OtherPast(h, g, r, i, term, j);
    hide Past, ElectionsCoherent;
  }

  lemma OtherPast(h: History, g: History, r: Replica, i: nat, term: nat, j: nat)
    requires ElectionsCoherent(h) && ElectionsCoherent(g) && Adds(h, g, i, term) && j != i && Past(h, r, j)
    ensures Past(g, r, j)
  {
    hide Longer, Elected;
  }

  lemma OtherLeader(h: History, g: History, r: Replica, i: nat, term: nat, j: nat)
    requires ElectionsCoherent(h) && Adds(h, g, i, term) && j != i
    requires LeaderOk(h, r, j) && KnowsOk(h, r, j)
    ensures LeaderOk(g, r, j) && KnowsOk(g, r, j)
  {
    hide Longer, Elected;
  }

  lemma OtherOk(h: History, g: History, r: Replica, i: nat, term: nat, j: nat)
    requires Coherent(h) && Coherent(g) && Adds(h, g, i, term) && j != i && ReplicaOk(h, r, j)
    ensures ReplicaOk(g, r, j)
  {
    OtherHolds(h, g, r, i, term, j);
    assert Grows(h, g);
    FromLeadersGrows(h, g, r.log);
    CommittedGrows(h, g, r.term, r.term, r.commit, r.log);
    OtherVoter(h, g, r, i, term, j);
    OtherLeader(h, g, r, i, term, j);
    hide FromLeaders, UpTo, HoldsOne, Committed, VoterOk, LeaderOk, KnowsOk, Past, Coherent, Adds;
  }

  /** A vote that counted still counts. */
  lemma SawStill(h: History, g: History, i: nat, term: nat, v: nat, u: nat)
    requires Coherent(h) && Adds(h, g, i, term) && (v == i ==> term >= u)
    requires (v, u) in h.voted && (u, h.voted[(v, u)]) in h.stood && SawOne(h, v, u)
    ensures SawOne(g, v, u)
  {
    hide LogsCoherent, StoodCoherent, ElectionsCoherent, ByReplicas, Saw, Longer;
    var stood := h.stood[(u, h.voted[(v, u)])];
    forall t: nat, n: nat | t < u && Acked(g, v, t, n) ensures Same(stood, g.logs[t], n) || Lost(g, t, n, u) {
      assert (v, t) != (i, term);
      AckedStill(h, g, v, t, n);
      if Same(stood, h.logs[t], n) {
        SameLonger(stood, h.logs[t], g.logs[t], t, n);
      } else {
        LostGrows(h, g, t, n, u, u);
      }
    }
  }

  /** Each of these replicas has voted in the term. */
  predicate AllVoted(h: History, voters: set<nat>, term: nat) {
    forall v :: v in voters ==> (v, term) in h.voted
  }

  /** Votes given before, and the one given now. */
  lemma SawGrows(h: History, g: History, r: Replica, i: nat, term: nat)
    requires Coherent(h) && Adds(h, g, i, term) && Past(h, r, i) && term >= r.term
    requires ElectionsCoherent(g)
    requires (i, term) in g.voted && (i, term) !in h.voted && term !in g.logs ==> SawOne(g, i, term)
    requires term in g.electors ==> AllVoted(h, g.electors[term], term)
    ensures Saw(g)
  {
    hide SawOne, Longer, LogsCoherent, StoodCoherent, AcksCoherent, Elected;
    forall k: (nat, nat) | k in g.voted && (k.1, g.voted[k]) in g.stood
                           && (k.1 !in g.logs || (k.1 in g.electors && k.0 in g.electors[k.1]))
      ensures SawOne(g, k.0, k.1)
    {
      var (v, u) := k;
      assert k == (v, u);
      if k in h.voted {
        VoteWasSeen(h, g, i, term, v, u);
        SawStill(h, g, i, term, v, u);
      } else {
        assert k == (i, term);
        assert u !in g.logs;
      }
    }
  }

  lemma VoteWasSeen(h: History, g: History, i: nat, term: nat, v: nat, u: nat)
    requires Coherent(h) && Adds(h, g, i, term) && (v, u) in h.voted
    requires u !in g.logs || (u in g.electors && v in g.electors[u])
    ensures (u, h.voted[(v, u)]) in h.stood && SawOne(h, v, u)
  {
    hide SawOne, Longer, LogsCoherent, StoodCoherent, AcksCoherent, Elected;
    var k: (nat, nat) := (v, u);
    assert k in h.voted;
    assert u in h.logs ==> u in h.electors && v in h.electors[u];
  }

  lemma AddsMessages(y: System, g: History, i: nat, term: nat)
    requires Inv(y) && Adds(y.history, g, i, term)
    ensures MessagesOk(g, y.sent)
  {
    hide MessagesOk, Grows;
    AddsIsGrowth(y.history, g, i, term);
    MessagesGrow(y.history, g, y.sent);
  }

  lemma AddsIsGrowth(h: History, g: History, i: nat, term: nat)
    requires Adds(h, g, i, term)
    ensures Grows(h, g)
  {
    hide Grows;
  }

  /** One replica adds to the history, and moves to somewhere that agrees with it. */
  lemma AddsOn(y: System, i: nat, q: Replica, g: History)
    requires Inv(y) && i < |y.replicas| && Adds(y.history, g, i, q.term)
    requires ReplicaOk(g, q, i) && Coherent(g)
    ensures Inv(Set(y, i, q).(history := g))
  {
    hide MessagesOk, ReplicaOk, Adds, Grows, Coherent;
    var z := Set(y, i, q).(history := g);
    AddsMessages(y, g, i, q.term);
    forall j | 0 <= j < |z.replicas| ensures ReplicaOk(g, z.replicas[j], j) {
      if j != i {
        OtherOk(y.history, g, y.replicas[j], i, q.term, j);
      }
    }
  }
}
