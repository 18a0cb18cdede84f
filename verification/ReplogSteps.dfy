/** The steps that add to the history: standing, voting, leading, taking commands and copying entries. */
module ReplogSteps {
  import opened Replog
  import opened ReplogInv
  import opened ReplogSafe
  import opened Wrappers

  // ---------------------------------------------------------------------------------------------
  // Standing

  function StandHistory(h: History, i: nat, r: Replica): History {
    h.(voted := h.voted[(i, r.term + 1) := i], stood := h.stood[(r.term + 1, i) := r.log])
  }

  function StandReplica(i: nat, r: Replica): Replica {
    r.(term := r.term + 1, role := Candidate, votedFor := Some(i), leader := None, votes := {i})
  }

  lemma StandAdds(h: History, r: Replica, i: nat)
    requires Past(h, r, i)
    ensures Adds(h, StandHistory(h, i, r), i, r.term + 1)
    ensures (i, r.term + 1) !in h.voted && (r.term + 1, i) !in h.stood
  {}

  lemma StandSees(h: History, r: Replica, i: nat)
    requires HoldsOne(h, r, i)
    ensures SawOne(StandHistory(h, i, r), i, r.term + 1)
  {
    var g := StandHistory(h, i, r);
    forall t: nat, n: nat | t < r.term + 1 && Acked(g, i, t, n)
      ensures Same(r.log, g.logs[t], n) || Lost(g, t, n, r.term + 1)
    {
      assert Acked(h, i, t, n);
      assert Lost(h, t, n, r.term + 1) ==> Lost(g, t, n, r.term + 1);
    }
  }

  lemma StandElections(h: History, r: Replica, i: nat)
    requires ElectionsCoherent(h) && Past(h, r, i)
    ensures ElectionsCoherent(StandHistory(h, i, r))
  {
    var g := StandHistory(h, i, r);
    forall t | t in g.leads ensures Elected(g, t) {
      assert Elected(h, t);
    }
  }

  lemma StandRest(h: History, r: Replica, i: nat)
    requires LogsCoherent(h) && StoodCoherent(h) && AcksCoherent(h) && ByReplicas(h) && i < REPLICAS
    requires FromLeaders(h.logs, r.log) && UpTo(r.log, r.term)
    ensures var g := StandHistory(h, i, r);
            LogsCoherent(g) && StoodCoherent(g) && AcksCoherent(g) && ByReplicas(g)
  {
    hide FromLeaders;
  }

  lemma StandCoherent(h: History, r: Replica, i: nat)
    requires Coherent(h) && ReplicaOk(h, r, i) && i < REPLICAS
    ensures Coherent(StandHistory(h, i, r))
  {
    hide LogsCoherent, StoodCoherent, ElectionsCoherent, AcksCoherent, ByReplicas, Saw, FromLeaders, UpTo, HoldsOne, CommitOk;
    hide VoterOk, LeaderOk, KnowsOk, Past, Adds, SawOne, Grows;
    var g := StandHistory(h, i, r);
    StandAdds(h, r, i);
    StandSees(h, r, i);
    StandElections(h, r, i);
    StandRest(h, r, i);
    StandElectors(h, r, i);
    SawGrows(h, g, r, i, r.term + 1);
  }

  lemma StandElectors(h: History, r: Replica, i: nat)
    requires ElectionsCoherent(h)
    ensures var g := StandHistory(h, i, r);
            r.term + 1 in g.electors ==> AllVoted(h, g.electors[r.term + 1], r.term + 1)
  {
    ElectorsVoted(h, StandHistory(h, i, r), i, r.term + 1);
  }

  lemma ElectorsVoted(h: History, g: History, i: nat, term: nat)
    requires ElectionsCoherent(h) && (term in g.electors ==> term in h.electors && g.electors[term] == h.electors[term])
    ensures term in g.electors ==> AllVoted(h, g.electors[term], term)
  {
    if term in g.electors { assert Elected(h, term); }
  }

  lemma StandHolds(h: History, r: Replica, i: nat)
    requires HoldsOne(h, r, i)
    ensures HoldsOne(StandHistory(h, i, r), StandReplica(i, r), i)
  {
    var g, q := StandHistory(h, i, r), StandReplica(i, r);
    HoldsLater(h, r, q, i);
    forall t: nat, n: nat | Acked(g, i, t, n) ensures Same(q.log, g.logs[t], n) || Lost(g, t, n, q.term + 1) {
      assert Acked(h, i, t, n);
      assert Lost(h, t, n, q.term + 1) ==> Lost(g, t, n, q.term + 1);
    }
  }

  lemma StandVoter(h: History, r: Replica, i: nat)
    requires ElectionsCoherent(h) && Past(h, r, i) && LeaderOk(h, r, i) && i < REPLICAS
    ensures var g, q := StandHistory(h, i, r), StandReplica(i, r);
            Past(g, q, i) && VoterOk(g, q, i) && LeaderOk(g, q, i) && KnowsOk(g, q, i)
  {
    hide Elected;
  }

  lemma StandOk(h: History, r: Replica, i: nat)
    requires Coherent(h) && ReplicaOk(h, r, i) && i < REPLICAS
    ensures ReplicaOk(StandHistory(h, i, r), StandReplica(i, r), i)
  {
    var g, q := StandHistory(h, i, r), StandReplica(i, r);
    StandAdds(h, r, i);
    assert Grows(h, g) && UpTo(q.log, q.term);
    CommittedGrows(h, g, r.term, q.term, r.commit, r.log);
    assert CommitOk(g, q);
    hide LogsCoherent, StoodCoherent, ElectionsCoherent, AcksCoherent, ByReplicas, Saw, FromLeaders, UpTo, HoldsOne, CommitOk;
    hide VoterOk, LeaderOk, KnowsOk, Past, Adds, SawOne, Grows;
    StandHolds(h, r, i);
    StandVoter(h, r, i);
  }

  lemma StandInv(y: System, i: nat)
    requires Inv(y) && i < |y.replicas|
    ensures Inv(Stand(y, i))
  {
    hide ReplicaOk, Coherent, Adds, MessagesOk, Past;
    var r, h := y.replicas[i], y.history;
    var g, q := StandHistory(h, i, r), StandReplica(i, r);
    assert ReplicaOk(h, r, i);
    StandCoherent(h, r, i);
    StandOk(h, r, i);
    PastOf(h, r, i);
    StandAdds(h, r, i);
    AddsOn(y, i, q, g);
    var z := Set(y, i, q).(history := g);
    Sends(z, ToOthers(i, RequestVote(q.term, Last(r.log))));
  }

  lemma PastOf(h: History, r: Replica, i: nat)
    requires ReplicaOk(h, r, i)
    ensures Past(h, r, i) && VoterOk(h, r, i) && LeaderOk(h, r, i) && KnowsOk(h, r, i)
    ensures FromLeaders(h.logs, r.log) && UpTo(r.log, r.term) && HoldsOne(h, r, i) && CommitOk(h, r)
  {}

  // ---------------------------------------------------------------------------------------------
  // Voting

  /** A log that is not behind another holds whatever the other does of an earlier leader's, unless it ends
      with a leader's that never had it. */
  lemma NotBehindHolds(h: History, stood: Log, log: Log, t: nat, n: nat, u: nat)
    requires LogsCoherent(h) && FromLeaders(h.logs, stood) && FromLeaders(h.logs, log)
    requires u > 0 && UpTo(stood, u - 1) && NotBehind(Last(stood), Last(log))
    requires t in h.logs && 0 < n && Same(log, h.logs[t], n) && h.logs[t][n - 1].term == t
    ensures Same(stood, h.logs[t], n) || Lost(h, t, n, u)
  {
    SameAt(log, h.logs[t], n, n - 1);
    LastsLeader(h.logs, log);
    var a := Last(log).term;
    SameAt(log, h.logs[a], |log|, n - 1);
    assert t <= a;
    assert stood != [];
    LastsLeader(h.logs, stood);
    var b := Last(stood).term;
    if b == a {
      SamePrefix(stood, h.logs[a], |stood|, n);
      SamePrefix(log, h.logs[a], |log|, n);
    } else if Same(h.logs[b], h.logs[t], n) {
      if |stood| <= n {
        SameAt(h.logs[b], h.logs[t], n, |stood| - 1);
        SameAt(stood, h.logs[b], |stood|, |stood| - 1);
        assert false;
      }
      SamePrefix(stood, h.logs[b], |stood|, n);
    } else {
      assert b in h.logs && t < b < u;
    }
  }

  function GrantHistory(h: History, i: nat, term: nat, candidate: nat): History {
    h.(voted := h.voted[(i, term) := candidate])
  }

  lemma GrantSees(h: History, r: Replica, i: nat, candidate: nat)
    requires LogsCoherent(h) && StoodCoherent(h) && HoldsOne(h, r, i) && FromLeaders(h.logs, r.log)
    requires (r.term, candidate) in h.stood && NotBehind(Last(h.stood[(r.term, candidate)]), Last(r.log))
    requires r.term !in h.logs
    ensures SawOne(GrantHistory(h, i, r.term, candidate), i, r.term)
  {
    var g := GrantHistory(h, i, r.term, candidate);
    var k: (nat, nat) := (r.term, candidate);
    var stood := h.stood[k];
    assert k in h.stood && k.0 == r.term;
    forall t: nat, n: nat | t < r.term && Acked(g, i, t, n)
      ensures Same(stood, g.logs[t], n) || Lost(g, t, n, r.term)
    {
      assert Acked(h, i, t, n);
      if Same(r.log, h.logs[t], n) {
        NotBehindHolds(h, stood, r.log, t, n, r.term);
      } else {
        var w :| t < w < r.term + 1 && w in h.logs && !Same(h.logs[w], h.logs[t], n);
        assert w != r.term;
      }
      assert Lost(h, t, n, r.term) ==> Lost(g, t, n, r.term);
    }
  }

  lemma GrantAdds(h: History, r: Replica, i: nat, candidate: nat)
    requires (i, r.term) !in h.voted
    ensures Adds(h, GrantHistory(h, i, r.term, candidate), i, r.term)
  {}

  lemma GrantElections(h: History, r: Replica, i: nat, candidate: nat)
    requires ElectionsCoherent(h) && (i, r.term) !in h.voted && (r.term, candidate) in h.stood
    ensures ElectionsCoherent(GrantHistory(h, i, r.term, candidate))
  {
    var g := GrantHistory(h, i, r.term, candidate);
    forall t | t in g.leads ensures Elected(g, t) {
      assert Elected(h, t);
    }
  }

  lemma GrantRest(h: History, r: Replica, i: nat, candidate: nat)
    requires LogsCoherent(h) && StoodCoherent(h) && AcksCoherent(h) && ByReplicas(h) && i < REPLICAS
    ensures var g := GrantHistory(h, i, r.term, candidate);
            LogsCoherent(g) && StoodCoherent(g) && AcksCoherent(g) && ByReplicas(g)
  {
    hide FromLeaders;
  }

  lemma GrantCoherent(h: History, r: Replica, i: nat, candidate: nat)
    requires Coherent(h) && ReplicaOk(h, r, i) && i < REPLICAS && (i, r.term) !in h.voted
    requires (r.term, candidate) in h.stood && NotBehind(Last(h.stood[(r.term, candidate)]), Last(r.log))
    ensures Coherent(GrantHistory(h, i, r.term, candidate))
  {
    hide LogsCoherent, StoodCoherent, ElectionsCoherent, AcksCoherent, ByReplicas, Saw, FromLeaders, UpTo, HoldsOne, CommitOk;
    hide VoterOk, LeaderOk, KnowsOk, Past, Adds, SawOne, Grows;
    hide NotBehind;
    var g := GrantHistory(h, i, r.term, candidate);
    GrantAdds(h, r, i, candidate);
    if r.term !in h.logs { GrantSees(h, r, i, candidate); }
    GrantElections(h, r, i, candidate);
    GrantRest(h, r, i, candidate);
    GrantElectors(h, r, i, candidate);
    SawGrows(h, g, r, i, r.term);
  }

  lemma GrantElectors(h: History, r: Replica, i: nat, candidate: nat)
    requires ElectionsCoherent(h)
    ensures r.term in h.electors ==> AllVoted(h, h.electors[r.term], r.term)
  {
    ElectorsVoted(h, h, i, r.term);
  }

  lemma GrantOk(h: History, r: Replica, i: nat, candidate: nat)
    requires ReplicaOk(h, r, i) && r.votedFor.None?
    ensures ReplicaOk(GrantHistory(h, i, r.term, candidate), r.(votedFor := Some(candidate)), i)
  {
    var g, q := GrantHistory(h, i, r.term, candidate), r.(votedFor := Some(candidate));
    GrantAdds(h, r, i, candidate);
    assert Grows(h, g);
    CommittedGrows(h, g, r.term, r.term, r.commit, r.log);
    assert HoldsOne(g, q, i) by {
      forall t: nat, n: nat | Acked(g, i, t, n) ensures Same(q.log, g.logs[t], n) || Lost(g, t, n, q.term + 1) {
        assert Acked(h, i, t, n);
        assert Lost(h, t, n, q.term + 1) ==> Lost(g, t, n, q.term + 1);
      }
    }
    hide Committed, HoldsOne, FromLeaders, UpTo, Adds, Grows;
    assert VoterOk(g, q, i) && LeaderOk(g, q, i) && KnowsOk(g, q, i) && Past(g, q, i) && CommitOk(g, q);
  }

  lemma GrantInv(y: System, i: nat, candidate: nat)
    requires Inv(y) && i < |y.replicas| && y.replicas[i].votedFor.None?
    requires var r, h := y.replicas[i], y.history;
             (r.term, candidate) in h.stood && NotBehind(Last(h.stood[(r.term, candidate)]), Last(r.log))
    ensures Inv(Grant(y, i, candidate))
  {
    var r, h := y.replicas[i], y.history;
    assert ReplicaOk(h, r, i);
    assert (i, r.term) !in h.voted;
    GrantCoherent(h, r, i, candidate);
    GrantOk(h, r, i, candidate);
    GrantAdds(h, r, i, candidate);
    hide ReplicaOk, Coherent, Adds, MessagesOk;
    AddsOn(y, i, r.(votedFor := Some(candidate)), GrantHistory(h, i, r.term, candidate));
  }

  // ---------------------------------------------------------------------------------------------
  // A leader's log grows

  lemma OneMoreEntry(h: History, g: History, log: Log, op: Op, term: nat)
    requires LogsCoherent(h) && StoodCoherent(h) && FromLeaders(h.logs, log) && UpTo(log, term)
    requires Grows(h, g) && g.stood == h.stood && g.logs == h.logs[term := log + [Entry(term, op)]]
    ensures LogsCoherent(g) && StoodCoherent(g)
    ensures FromLeaders(g.logs, log + [Entry(term, op)]) && UpTo(log + [Entry(term, op)], term)
  {
    var longer := log + [Entry(term, op)];
    FromLeadersGrows(h, g, log);
    forall k | 0 <= k < |longer| ensures longer[k].term in g.logs && Same(longer, g.logs[longer[k].term], k + 1) {
      if k < |log| {
        assert Same(log, g.logs[log[k].term], k + 1);
        assert longer[..k + 1] == log[..k + 1];
      }
    }
    forall t | t in g.logs ensures FromLeaders(g.logs, g.logs[t]) && UpTo(g.logs[t], t) {
      if t != term { FromLeadersGrows(h, g, h.logs[t]); }
    }
    forall k: (nat, nat) | k in g.stood ensures FromLeaders(g.logs, g.stood[k]) {
      FromLeadersGrows(h, g, h.stood[k]);
    }
  }

  lemma HoldsMore(h: History, g: History, r: Replica, q: Replica, i: nat)
    requires Grows(h, g) && AcksCoherent(h) && HoldsOne(h, r, i) && q.term == r.term
    requires r.log <= q.log && r.term in g.logs && g.logs[r.term] == q.log
    requires forall k: (nat, nat) :: k in g.acked && k != (i, r.term) ==> k in h.acked && g.acked[k] == h.acked[k]
    ensures HoldsOne(g, q, i)
  {
    forall t: nat, n: nat | Acked(g, i, t, n) ensures Same(q.log, g.logs[t], n) || Lost(g, t, n, q.term + 1) {
      if t != r.term {
        assert (i, t) in h.acked;
        AckedStill(h, g, i, t, n);
        if Same(r.log, h.logs[t], n) {
          SameLonger(r.log, h.logs[t], g.logs[t], t, n);
          assert q.log[..n] == r.log[..n];
        } else {
          LostGrows(h, g, t, n, r.term + 1, q.term + 1);
        }
      }
    }
  }

  lemma CommitMore(h: History, g: History, r: Replica, q: Replica)
    requires Grows(h, g) && CommitOk(h, r) && q.term == r.term && r.log <= q.log
    requires q.commit == r.commit && q.applied == r.applied
    ensures CommitOk(g, q)
  {
    CommittedGrows(h, g, r.term, r.term, r.commit, r.log);
    CommittedLonger(g, r.term, r.commit, r.log, q.log);
    assert q.log[..q.commit] == r.log[..r.commit];
  }

  // ---------------------------------------------------------------------------------------------
  // Leading

  function LeadHistory(h: History, i: nat, r: Replica): History {
    var log := r.log + [Entry(r.term, Noop)];
    h.(logs := h.logs[r.term := log], leads := h.leads[r.term := i],
       electors := h.electors[r.term := r.votes], acked := h.acked[(i, r.term) := |log|])
  }

  function LeadReplica(i: nat, r: Replica): Replica {
    var log := r.log + [Entry(r.term, Noop)];
    r.(role := Leader, led := r.led + {r.term}, log := log, leader := Some(i), votes := {}, prevotes := {},
       next := seq(REPLICAS, _ => |log|), matched := seq(REPLICAS, f => if f == i then |log| else 0))
  }

  /** No one has led the term already: any majority that elected them shares a voter with this one. */
  lemma NotYetLed(h: History, r: Replica, i: nat)
    requires ElectionsCoherent(h) && VoterOk(h, r, i) && r.role == Candidate && |r.votes| >= MAJORITY
    ensures r.term !in h.logs
  {
    if r.term in h.leads {
      assert Elected(h, r.term);
      var v := MajoritiesMeet(r.votes, h.electors[r.term]);
    }
  }

  lemma LeadAdds(h: History, r: Replica, i: nat)
    requires r.term !in h.logs && AcksCoherent(h) && ElectionsCoherent(h)
    ensures Adds(h, LeadHistory(h, i, r), i, r.term)
  {
    hide Elected, Grows;
    var k: (nat, nat) := (i, r.term);
    assert k !in h.acked;
    LeadGrows(h, r, i);
  }

  lemma LeadGrows(h: History, r: Replica, i: nat)
    requires r.term !in h.logs && AcksCoherent(h) && ElectionsCoherent(h)
    ensures Grows(h, LeadHistory(h, i, r))
  {
    hide Elected;
    var k: (nat, nat) := (i, r.term);
    assert k !in h.acked;
  }

  lemma LeadElections(h: History, r: Replica, i: nat)
    requires ElectionsCoherent(h) && VoterOk(h, r, i) && r.role == Candidate && |r.votes| >= MAJORITY && r.term !in h.logs
    ensures ElectionsCoherent(LeadHistory(h, i, r))
  {
    var g := LeadHistory(h, i, r);
    forall t | t in g.leads ensures Elected(g, t) {
      if t != r.term { assert Elected(h, t); }
    }
  }

  lemma LeadRest(h: History, r: Replica, i: nat)
    requires AcksCoherent(h) && ByReplicas(h) && i < REPLICAS && r.term !in h.logs
    ensures AcksCoherent(LeadHistory(h, i, r)) && ByReplicas(LeadHistory(h, i, r))
  {}

  lemma LeadElectors(h: History, r: Replica, i: nat)
    requires VoterOk(h, r, i) && r.role == Candidate
    ensures AllVoted(h, r.votes, r.term)
  {}

  lemma AddsGrows(h: History, g: History, i: nat, term: nat)
    requires Adds(h, g, i, term)
    ensures Grows(h, g)
  {}

  lemma LeadCoherent(h: History, r: Replica, i: nat)
    requires Coherent(h) && ReplicaOk(h, r, i) && i < REPLICAS && r.role == Candidate && |r.votes| >= MAJORITY
    requires r.term !in h.logs
    ensures Coherent(LeadHistory(h, i, r))
    ensures var log := LeadReplica(i, r).log; FromLeaders(LeadHistory(h, i, r).logs, log) && UpTo(log, r.term)
  {
    hide LogsCoherent, StoodCoherent, ElectionsCoherent, AcksCoherent, ByReplicas, Saw, FromLeaders, UpTo, HoldsOne, CommitOk;
    hide VoterOk, LeaderOk, KnowsOk, Past, Adds, SawOne, Grows;
    var g := LeadHistory(h, i, r);
    LeadAdds(h, r, i);
    LeadElections(h, r, i);
    AddsGrows(h, g, i, r.term);
    OneMoreEntry(h, g, r.log, Noop, r.term);
    LeadRest(h, r, i);
    LeadElectors(h, r, i);
    SawGrows(h, g, r, i, r.term);
  }

  lemma LeadLeads(h: History, r: Replica, i: nat)
    requires ReplicaOk(h, r, i) && r.term !in h.leads && i < REPLICAS
    ensures var g, q := LeadHistory(h, i, r), LeadReplica(i, r);
            Past(g, q, i) && VoterOk(g, q, i) && LeaderOk(g, q, i) && KnowsOk(g, q, i)
  {
    hide FromLeaders, UpTo, HoldsOne, CommitOk;
  }

  lemma LeadInv(y: System, i: nat)
    requires Inv(y) && i < |y.replicas| && y.replicas[i].role == Candidate && |y.replicas[i].votes| >= MAJORITY
    ensures Inv(Lead(y, i))
  {
    var r, h := y.replicas[i], y.history;
    var g, q := LeadHistory(h, i, r), LeadReplica(i, r);
    assert ReplicaOk(h, r, i);
    NotYetLed(h, r, i);
    LeadAdds(h, r, i);
    assert Grows(h, g) && r.log <= q.log;
    LeadCoherent(h, r, i);
    LeadLeads(h, r, i);
    HoldsMore(h, g, r, q, i);
    CommitMore(h, g, r, q);
    assert ReplicaOk(g, q, i) by {
      hide FromLeaders, UpTo, HoldsOne, CommitOk, Past, VoterOk, LeaderOk, KnowsOk;
    }
    hide ReplicaOk, Coherent, Adds, MessagesOk;
    AddsOn(y, i, q, g);
  }

  // ---------------------------------------------------------------------------------------------
  // Taking a command

  function PutHistory(h: History, i: nat, r: Replica, command: nat): History {
    var log := r.log + [Entry(r.term, Command(command))];
    h.(logs := h.logs[r.term := log], acked := h.acked[(i, r.term) := |log|])
  }

  function PutReplica(i: nat, r: Replica, command: nat): Replica {
    var log := r.log + [Entry(r.term, Command(command))];
    r.(log := log, matched := if i < |r.matched| then r.matched[i := |log|] else r.matched)
  }

  lemma PutAdds(h: History, r: Replica, i: nat, command: nat)
    requires LeaderOk(h, r, i) && KnowsOk(h, r, i) && r.role == Leader && ElectionsCoherent(h)
    ensures Adds(h, PutHistory(h, i, r, command), i, r.term)
  {
    hide Elected;
  }

  lemma PutElections(h: History, r: Replica, i: nat, command: nat)
    requires ElectionsCoherent(h) && LeaderOk(h, r, i) && r.role == Leader
    ensures ElectionsCoherent(PutHistory(h, i, r, command))
  {
    var g := PutHistory(h, i, r, command);
    forall t | t in g.leads ensures Elected(g, t) {
      assert Elected(h, t);
    }
  }

  lemma PutRest(h: History, r: Replica, i: nat, command: nat)
    requires AcksCoherent(h) && ByReplicas(h) && i < REPLICAS && LeaderOk(h, r, i) && r.role == Leader
    ensures AcksCoherent(PutHistory(h, i, r, command)) && ByReplicas(PutHistory(h, i, r, command))
  {}

  lemma PutElectors(h: History, r: Replica, i: nat, command: nat)
    requires ElectionsCoherent(h)
    ensures var g := PutHistory(h, i, r, command);
            r.term in g.electors ==> AllVoted(h, g.electors[r.term], r.term)
  {
    ElectorsVoted(h, PutHistory(h, i, r, command), i, r.term);
  }

  lemma PutCoherent(h: History, r: Replica, i: nat, command: nat)
    requires Coherent(h) && ReplicaOk(h, r, i) && i < REPLICAS && r.role == Leader
    ensures Coherent(PutHistory(h, i, r, command))
    ensures var log := PutReplica(i, r, command).log;
            FromLeaders(PutHistory(h, i, r, command).logs, log) && UpTo(log, r.term)
  {
    hide LogsCoherent, StoodCoherent, ElectionsCoherent, AcksCoherent, ByReplicas, Saw, FromLeaders, UpTo, HoldsOne, CommitOk;
    hide VoterOk, LeaderOk, KnowsOk, Past, Adds, SawOne, Grows;
    var g := PutHistory(h, i, r, command);
    PutAdds(h, r, i, command);
    PutElections(h, r, i, command);
    AddsGrows(h, g, i, r.term);
    OneMoreEntry(h, g, r.log, Command(command), r.term);
    PutRest(h, r, i, command);
    PutElectors(h, r, i, command);
    SawGrows(h, g, r, i, r.term);
  }

  lemma PutLeads(h: History, r: Replica, i: nat, command: nat)
    requires ReplicaOk(h, r, i) && r.role == Leader && i < REPLICAS
    ensures var g, q := PutHistory(h, i, r, command), PutReplica(i, r, command);
            Past(g, q, i) && VoterOk(g, q, i) && LeaderOk(g, q, i) && KnowsOk(g, q, i)
  {
    hide FromLeaders, UpTo, HoldsOne, CommitOk;
  }

  lemma PutInv(y: System, i: nat, command: nat)
    requires Inv(y) && i < |y.replicas| && y.replicas[i].role == Leader
    ensures Inv(Put(y, i, command))
  {
    var r, h := y.replicas[i], y.history;
    var g, q := PutHistory(h, i, r, command), PutReplica(i, r, command);
    assert ReplicaOk(h, r, i);
    PutAdds(h, r, i, command);
    assert Grows(h, g) && r.log <= q.log;
    PutCoherent(h, r, i, command);
    PutLeads(h, r, i, command);
    HoldsMore(h, g, r, q, i);
    CommitMore(h, g, r, q);
    assert ReplicaOk(g, q, i) by {
      hide FromLeaders, UpTo, HoldsOne, CommitOk, Past, VoterOk, LeaderOk, KnowsOk;
    }
    hide ReplicaOk, Coherent, Adds, MessagesOk;
    AddsOn(y, i, q, g);
  }
}
