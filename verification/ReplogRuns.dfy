/** Copying entries, every message handled, every run: and the safety of the log. */
module ReplogRuns {
  import opened Replog
  import opened ReplogInv
  import opened ReplogSafe
  import opened ReplogSteps
  import opened Wrappers

  // ---------------------------------------------------------------------------------------------
  // Copying a leader's entries

  lemma FromLeadersPrefix(logs: map<nat, Log>, log: Log, n: nat)
    requires FromLeaders(logs, log) && n <= |log|
    ensures FromLeaders(logs, log[..n])
  {
    var cut := log[..n];
    forall i | 0 <= i < |cut| ensures cut[i].term in logs && Same(cut, logs[cut[i].term], i + 1) {
      assert log[i].term in logs && Same(log, logs[log[i].term], i + 1);
      assert cut[..i + 1] == log[..i + 1];
    }
  }

  /** Copying entries leaves either the log as it was or exactly what was copied, and in either case takes
      nothing away that the two agreed on. */
  lemma {:induction false} TakeKeeps(logs: map<nat, Log>, full: Log, log: Log, prev: nat, copied: Log)
    requires FromLeaders(logs, full) && FromLeaders(logs, log) && prev <= |log|
    requires prev + |copied| <= |full| && copied == full[prev..prev + |copied|] && Same(log, full, prev)
    ensures var l := Take(log, prev, copied);
            && Same(l, full, prev + |copied|)
            && (l == log || l == full[..prev + |copied|])
            && (forall k :: Same(log, full, k) ==> Same(l, full, k))
    decreases |copied|
  {
    var m := prev + |copied|;
    if copied != [] {
      assert copied[0] == full[prev];
      assert copied[1..] == full[prev + 1..m];
      if prev < |log| && log[prev].term == copied[0].term {
        Matching(logs, log, full, prev);
        TakeKeeps(logs, full, log, prev + 1, copied[1..]);
      } else {
        var cut := log[..prev] + [copied[0]];
        assert cut == full[..prev + 1];
        FromLeadersPrefix(logs, full, prev + 1);
        TakeKeeps(logs, full, cut, prev + 1, copied[1..]);
        var l := Take(cut, prev + 1, copied[1..]);
        assert l == full[..m] by { if l == cut { CutIsAll(full, cut, prev, m); } }
        forall k | Same(log, full, k) ensures Same(l, full, k) {
          if k > prev { SameAt(log, full, k, prev); }
          assert cut[..k] == full[..k];
          assert Same(cut, full, k);
        }
      }
    }
  }

  lemma CutIsAll(full: Log, cut: Log, prev: nat, m: nat)
    requires prev + 1 <= m <= |full| && cut == full[..prev + 1] && Same(cut, full, m)
    ensures cut == full[..m]
  {}

  /** What a leader sent fits on a replica's log: the two agree up to the entry before it, and it is the
      leader's own from there. */
  ghost predicate FitsOn(h: History, term: nat, log: Log, prev: nat, copied: Log) {
    && term in h.logs && Same(log, h.logs[term], prev)
    && prev + |copied| <= |h.logs[term]| && copied == h.logs[term][prev..prev + |copied|]
  }

  function AcceptHistory(h: History, i: nat, r: Replica, last: nat): History {
    var before := if (i, r.term) in h.acked then h.acked[(i, r.term)] else 0;
    h.(acked := h.acked[(i, r.term) := Max(before, last)])
  }

  lemma AcceptAdds(h: History, r: Replica, i: nat, last: nat)
    ensures Adds(h, AcceptHistory(h, i, r, last), i, r.term)
  {}

  lemma AcceptRest(h: History, r: Replica, i: nat, last: nat)
    requires LogsCoherent(h) && StoodCoherent(h) && AcksCoherent(h) && ByReplicas(h) && ElectionsCoherent(h)
    requires i < REPLICAS && r.term in h.logs && last <= |h.logs[r.term]|
    ensures var g := AcceptHistory(h, i, r, last);
            LogsCoherent(g) && StoodCoherent(g) && AcksCoherent(g) && ByReplicas(g) && ElectionsCoherent(g)
  {
    hide FromLeaders;
    var g := AcceptHistory(h, i, r, last);
    forall t | t in g.leads ensures Elected(g, t) {
      assert Elected(h, t);
    }
  }

  lemma AcceptCoherent(h: History, r: Replica, i: nat, last: nat)
    requires Coherent(h) && Past(h, r, i) && i < REPLICAS && r.term in h.logs && last <= |h.logs[r.term]|
    ensures Coherent(AcceptHistory(h, i, r, last))
  {
    hide LogsCoherent, StoodCoherent, ElectionsCoherent, AcksCoherent, ByReplicas, Saw, FromLeaders, SawOne, Adds, Past;
    var g := AcceptHistory(h, i, r, last);
    AcceptAdds(h, r, i, last);
    AcceptRest(h, r, i, last);
    ElectorsVoted(h, g, i, r.term);
    SawGrows(h, g, r, i, r.term);
  }

  /** What a replica agreed to with an earlier leader it holds still, or this leader never had it; what it
      agreed to with this one it holds. */
  lemma AcceptHolds(h: History, r: Replica, i: nat, prev: nat, copied: Log)
    requires LogsCoherent(h) && AcksCoherent(h) && HoldsOne(h, r, i) && FromLeaders(h.logs, r.log) && Past(h, r, i)
    requires prev <= |r.log| && FitsOn(h, r.term, r.log, prev, copied)
    ensures HoldsOne(AcceptHistory(h, i, r, prev + |copied|), r.(log := Take(r.log, prev, copied)), i)
  {
    var g, full := AcceptHistory(h, i, r, prev + |copied|), h.logs[r.term];
    TakeKeeps(h.logs, full, r.log, prev, copied);
    var l := Take(r.log, prev, copied);
    forall t: nat, n: nat | Acked(g, i, t, n) ensures Same(l, g.logs[t], n) || Lost(g, t, n, r.term + 1) {
      HoldsAfter(h, r, i, prev, copied, l, t, n);
      assert Lost(h, t, n, r.term + 1) ==> Lost(g, t, n, r.term + 1);
    }
  }

  lemma HoldsAfter(h: History, r: Replica, i: nat, prev: nat, copied: Log, l: Log, t: nat, n: nat)
    requires HoldsOne(h, r, i) && Past(h, r, i) && r.term in h.logs
    requires Same(l, h.logs[r.term], prev + |copied|)
    requires forall k :: Same(r.log, h.logs[r.term], k) ==> Same(l, h.logs[r.term], k)
    requires Acked(AcceptHistory(h, i, r, prev + |copied|), i, t, n)
    ensures Same(l, h.logs[t], n) || Lost(h, t, n, r.term + 1)
  {
    var full := h.logs[r.term];
    if t == r.term {
      if n <= prev + |copied| {
        SamePrefix(l, full, prev + |copied|, n);
      } else {
        assert Acked(h, i, t, n);
        assert !Lost(h, t, n, r.term + 1);
      }
    } else {
      assert Acked(h, i, t, n) && t < r.term;
      if Same(r.log, h.logs[t], n) {
        if Same(full, h.logs[t], n) {
          assert Same(r.log, full, n);
        } else {
          assert Lost(h, t, n, r.term + 1);
        }
      }
    }
  }

  /** What is committed is a later leader's too, so copying from one takes none of it away. */
  lemma CommittedIsLeaders(h: History, r: Replica)
    requires Coherent(h) && Committed(h, r.term, r.commit, r.log) && r.commit <= |r.log| && r.term in h.logs
    ensures Same(r.log, h.logs[r.term], r.commit)
  {
    if r.commit > 0 {
      var t: nat, n: nat :| Certified(h, t, n) && t <= r.term && r.commit <= n && Same(r.log, h.logs[t], r.commit);
      if t < r.term {
        LeaderComplete(h, t, n, r.term);
        SamePrefix(h.logs[r.term], h.logs[t], n, r.commit);
      }
    }
  }

  lemma CommittedOfSame(h: History, end: nat, k: nat, log: Log, other: Log)
    requires Committed(h, end, k, log) && Same(log, other, k)
    ensures Committed(h, end, k, other)
  {
    if k > 0 {
      var t: nat, n: nat :| Certified(h, t, n) && t <= end && k <= n && Same(log, h.logs[t], k);
      assert Same(other, h.logs[t], k);
    }
  }

  lemma CommittedLess(h: History, end: nat, k: nat, less: nat, log: Log)
    requires Committed(h, end, k, log) && less <= k
    ensures Committed(h, end, less, log)
  {
    if less > 0 {
      var t: nat, n: nat :| Certified(h, t, n) && t <= end && k <= n && Same(log, h.logs[t], k);
      SamePrefix(log, h.logs[t], k, less);
    }
  }

  lemma FullFrom(h: History, t: nat)
    requires Coherent(h) && t in h.logs
    ensures FromLeaders(h.logs, h.logs[t]) && UpTo(h.logs[t], t)
  {}

  lemma AcceptKeepsCommitted(h: History, r: Replica, prev: nat, copied: Log)
    requires Coherent(h) && CommitOk(h, r) && FromLeaders(h.logs, r.log)
    requires prev <= |r.log| && FitsOn(h, r.term, r.log, prev, copied)
    ensures var l := Take(r.log, prev, copied);
            r.commit <= |l| && l[..r.commit] == r.log[..r.commit] && Committed(h, r.term, r.commit, l)
  {
    hide Coherent, FromLeaders, UpTo, Committed, Take, Same;
    var full, l := h.logs[r.term], Take(r.log, prev, copied);
    CommittedIsLeaders(h, r);
    FullFrom(h, r.term);
    TakeKeeps(h.logs, full, r.log, prev, copied);
    SameBoth(r.log, l, full, r.commit);
    CommittedOfSame(h, r.term, r.commit, r.log, l);
  }

  lemma AcceptCommit(h: History, r: Replica, i: nat, prev: nat, copied: Log)
    requires Coherent(h) && CommitOk(h, r) && FromLeaders(h.logs, r.log)
    requires prev <= |r.log| && FitsOn(h, r.term, r.log, prev, copied)
    ensures CommitOk(AcceptHistory(h, i, r, prev + |copied|), r.(log := Take(r.log, prev, copied)))
  {
    hide Coherent, FromLeaders, UpTo, Committed, Take, Adds, Grows, FitsOn;
    var g, l := AcceptHistory(h, i, r, prev + |copied|), Take(r.log, prev, copied);
    AcceptKeepsCommitted(h, r, prev, copied);
    AcceptAdds(h, r, i, prev + |copied|);
    AddsGrows(h, g, i, r.term);
    CommittedGrows(h, g, r.term, r.term, r.commit, l);
  }

  lemma SameBoth(a: Log, b: Log, c: Log, n: int)
    requires Same(a, c, n) && Same(b, c, n)
    ensures 0 <= n <= |a| && n <= |b| && b[..n] == a[..n] && Same(a, b, n)
  {}

  lemma AcceptFrom(h: History, r: Replica, prev: nat, copied: Log)
    requires r.term in h.logs && FromLeaders(h.logs, h.logs[r.term]) && UpTo(h.logs[r.term], r.term)
    requires FromLeaders(h.logs, r.log) && UpTo(r.log, r.term) && prev <= |r.log| && Same(r.log, h.logs[r.term], prev)
    requires prev + |copied| <= |h.logs[r.term]| && copied == h.logs[r.term][prev..prev + |copied|]
    ensures FromLeaders(h.logs, Take(r.log, prev, copied)) && UpTo(Take(r.log, prev, copied), r.term)
  {
    var full := h.logs[r.term];
    TakeKeeps(h.logs, full, r.log, prev, copied);
    FromLeadersPrefix(h.logs, full, prev + |copied|);
    hide FromLeaders, Take;
  }

  lemma AcceptOk(h: History, r: Replica, i: nat, prev: nat, copied: Log)
    requires Coherent(h) && ReplicaOk(h, r, i) && r.role == Follower
    requires prev <= |r.log| && FitsOn(h, r.term, r.log, prev, copied)
    ensures ReplicaOk(AcceptHistory(h, i, r, prev + |copied|), r.(log := Take(r.log, prev, copied)), i)
  {
    hide FromLeaders, UpTo, HoldsOne, CommitOk, Take, Past, VoterOk, LeaderOk, KnowsOk;
    hide LogsCoherent, StoodCoherent, ElectionsCoherent, AcksCoherent, ByReplicas, Saw;
    FitsLast(h, r, prev, copied);
    PastOf(h, r, i);
    AcceptHolds(h, r, i, prev, copied);
    AcceptCommit(h, r, i, prev, copied);
    FullFrom(h, r.term);
    AcceptFrom(h, r, prev, copied);
    AcceptStands(h, r, i, prev + |copied|, Take(r.log, prev, copied));
  }

  lemma AcceptStands(h: History, r: Replica, i: nat, last: nat, log: Log)
    requires Past(h, r, i) && VoterOk(h, r, i) && LeaderOk(h, r, i) && r.role == Follower
    ensures var g, q := AcceptHistory(h, i, r, last), r.(log := log);
            Past(g, q, i) && VoterOk(g, q, i) && LeaderOk(g, q, i) && KnowsOk(g, q, i)
  {}

  lemma FitsLast(h: History, r: Replica, prev: nat, copied: Log)
    requires FitsOn(h, r.term, r.log, prev, copied)
    ensures r.term in h.logs && prev + |copied| <= |h.logs[r.term]|
  {}

  lemma AcceptInv(y: System, i: nat, prev: nat, copied: Log)
    requires Inv(y) && i < |y.replicas| && y.replicas[i].role == Follower
    requires prev <= |y.replicas[i].log| && FitsOn(y.history, y.replicas[i].term, y.replicas[i].log, prev, copied)
    ensures Inv(Accept(y, i, prev, copied))
  {
    hide ReplicaOk, Coherent, Adds, MessagesOk, Past, Same, FitsOn;
    var r, h := y.replicas[i], y.history;
    var last := prev + |copied|;
    FitsLast(h, r, prev, copied);
    assert ReplicaOk(h, r, i);
    PastOf(h, r, i);
    AcceptCoherent(h, r, i, last);
    AcceptOk(h, r, i, prev, copied);
    AcceptAdds(h, r, i, last);
    AddsOn(y, i, r.(log := Take(r.log, prev, copied)), AcceptHistory(h, i, r, last));
  }

  // ---------------------------------------------------------------------------------------------
  // Every message handled

  /** What a leader sends of its log is of its log. */
  lemma CopyOk(h: History, r: Replica, i: nat, follower: nat)
    requires ReplicaOk(h, r, i) && r.role == Leader
    ensures MessageOk(h, Packet(i, follower, CopyFor(r, follower)))
  {
    hide FromLeaders, UpTo, HoldsOne, VoterOk, Past, Committed;
  }

  lemma CopyInv(y: System, i: nat)
    requires Inv(y) && i < |y.replicas| && y.replicas[i].role == Leader
    ensures Inv(CopyToEveryone(y, i))
  {
    hide ReplicaOk, Coherent, MessagesOk, MessageOk;
    forall other | 0 <= other < REPLICAS && other != i
      ensures MessageOk(y.history, Packet(i, other, CopyFor(y.replicas[i], other)))
    {
      CopyOk(y.history, y.replicas[i], i, other);
    }
    Sends(y, set other | 0 <= other < REPLICAS && other != i :: Packet(i, other, CopyFor(y.replicas[i], other)));
  }

  lemma TimerInv(y: System, i: nat)
    requires Inv(y) && i < |y.replicas|
    ensures Inv(OnTimer(y, i))
  {
    hide Inv, CopyToEveryone;
    var r := y.replicas[i];
    if r.role == Leader {
      CopyInv(y, i);
    } else {
      QuietInv(y, i, None, {i});
      Sends(Set(y, i, r.(leader := None, prevotes := {i})), ToOthers(i, PreVote(r.term + 1, Last(r.log))));
    }
  }

  lemma PreVotedInv(y: System, i: nat, peer: nat, proposed: nat, granted: bool)
    requires Inv(y) && i < |y.replicas|
    ensures Inv(OnPreVoted(y, i, peer, proposed, granted))
  {
    hide Inv, Stand;
    var r := y.replicas[i];
    QuietInv(y, i, r.leader, {});
    QuietInv(y, i, r.leader, r.prevotes + {peer});
    StandInv(Set(y, i, r.(prevotes := {})), i);
  }

  lemma RequestVoteInv(y: System, i: nat, peer: nat, term: nat, end: LogEnd)
    requires Inv(y) && i < |y.replicas| && MessageOk(y.history, Packet(peer, i, RequestVote(term, end)))
    ensures Inv(OnRequestVote(y, i, peer, term, end))
  {
    hide Inv, ReplicaOk, NotBehind, Grant;
    var r := y.replicas[i];
    if peer < REPLICAS {
      var granted := Grants(r, peer, term, end);
      OkAt(y, i);
      PastOf(y.history, r, i);
      if granted && r.votedFor.None? {
        GrantInv(y, i, peer);
        Granted(y, i, peer);
      }
      var voted := if granted && r.votedFor.None? then Grant(y, i, peer) else y;
      assert MessageOk(voted.history, Packet(i, peer, Vote(r.term, granted)));
      hide MessageOk;
      Sends(voted, {Packet(i, peer, Vote(r.term, granted))});
    }
  }

  lemma Granted(y: System, i: nat, candidate: nat)
    requires i < |y.replicas|
    ensures var h, term := Grant(y, i, candidate).history, y.replicas[i].term;
            (i, term) in h.voted && h.voted[(i, term)] == candidate
  {}

  lemma VoteInv(y: System, i: nat, peer: nat, term: nat, granted: bool)
    requires Inv(y) && i < |y.replicas| && MessageOk(y.history, Packet(peer, i, Vote(term, granted)))
    ensures Inv(OnVote(y, i, peer, term, granted))
  {
    hide Inv, Lead, CopyToEveryone;
    var r := y.replicas[i];
    if r.role == Candidate && term == r.term && granted && peer < REPLICAS {
      var counted := Set(y, i, r.(votes := r.votes + {peer}));
      CountInv(y, i, peer);
      if |r.votes + {peer}| >= MAJORITY {
        LeadInv(counted, i);
        LeadIsLeader(counted, i);
        CopyInv(Lead(counted, i), i);
      }
    }
  }

  lemma LeadIsLeader(y: System, i: nat)
    requires i < |y.replicas|
    ensures i < |Lead(y, i).replicas| && Lead(y, i).replicas[i].role == Leader
  {}

  lemma TermAtSame(logs: map<nat, Log>, a: Log, b: Log, prev: nat)
    requires FromLeaders(logs, a) && FromLeaders(logs, b)
    requires TermAt(a, prev).Some? && TermAt(a, prev) == TermAt(b, prev)
    ensures prev <= |a| && prev <= |b| && Same(a, b, prev)
  {
    if prev > 0 { Matching(logs, a, b, prev - 1); }
  }

  lemma AppendInv(y: System, i: nat, peer: nat, term: nat, prev: nat, prevTerm: nat, copied: Log, commit: nat)
    requires Inv(y) && i < |y.replicas| && term <= y.replicas[i].term
    requires MessageOk(y.history, Packet(peer, i, Append(term, prev, prevTerm, copied, commit)))
    ensures Inv(OnAppend(y, i, peer, term, prev, prevTerm, copied, commit))
  {
    hide Inv, Accept, CommitTo, MessageOk;
    var r, h := y.replicas[i], y.history;
    if peer < REPLICAS {
      if term < r.term || r.role == Leader {
        RefusalOk(y, i, peer, r.term);
      } else {
        HeedsInv(y, i, peer);
        if TermAt(r.log, prev) != Some(prevTerm) {
          RefusalOk(Set(y, i, Heeds(r, peer)), i, peer, r.term);
        } else {
          Accepted(y, i, peer, prev, prevTerm, copied, commit);
        }
      }
    }
  }

  lemma RefusalOk(y: System, i: nat, peer: nat, term: nat)
    requires Inv(y)
    ensures Inv(Sending(y, {Packet(i, peer, Appended(term, None))}))
  {
    Sends(y, {Packet(i, peer, Appended(term, None))});
  }

  /** The entry before those sent is the follower's own: it takes them, and commits as far as it may. */
  lemma Accepted(y: System, i: nat, peer: nat, prev: nat, prevTerm: nat, copied: Log, commit: nat)
    requires Inv(y) && i < |y.replicas| && peer < REPLICAS && y.replicas[i].role != Leader
    requires Inv(Set(y, i, Heeds(y.replicas[i], peer))) && TermAt(y.replicas[i].log, prev) == Some(prevTerm)
    requires MessageOk(y.history, Packet(peer, i, Append(y.replicas[i].term, prev, prevTerm, copied, commit)))
    ensures Inv(OnAppend(y, i, peer, y.replicas[i].term, prev, prevTerm, copied, commit))
  {
    hide Inv, Coherent, FromLeaders, MessageOk, Committed, Same, CommitTo, Take, Accept, Min, FitsOn;
    var r, h := y.replicas[i], y.history;
    var heeding := Set(y, i, Heeds(r, peer));
    var last := prev + |copied|;
    Meets(y, i, peer, prev, prevTerm, copied, commit);
    var took := Accept(heeding, i, prev, copied);
    TookFacts(heeding, i, peer, prev, copied, commit);
    Copied(took, i, peer, commit, last, r.commit);
  }

  /** What an append says of a log that holds the entry before those sent. */
  lemma Meets(y: System, i: nat, peer: nat, prev: nat, prevTerm: nat, copied: Log, commit: nat)
    requires Inv(y) && i < |y.replicas| && TermAt(y.replicas[i].log, prev) == Some(prevTerm)
    requires MessageOk(y.history, Packet(peer, i, Append(y.replicas[i].term, prev, prevTerm, copied, commit)))
    ensures var r, h := y.replicas[i], y.history;
            && prev <= |r.log| && FitsOn(h, r.term, r.log, prev, copied)
            && Committed(h, r.term, commit, h.logs[r.term])
  {
    hide Inv, FromLeaders, MessageOk, Committed, Same;
    var r, h := y.replicas[i], y.history;
    AppendSays(h, peer, i, r.term, prev, prevTerm, copied, commit);
    LogsFrom(y, i, r.term);
    TermAtSame(h.logs, r.log, h.logs[r.term], prev);
  }

  lemma TookFacts(y: System, i: nat, peer: nat, prev: nat, copied: Log, commit: nat)
    requires Inv(y) && i < |y.replicas| && y.replicas[i].role == Follower
    requires var r, h := y.replicas[i], y.history;
             && prev <= |r.log| && FitsOn(h, r.term, r.log, prev, copied)
             && Committed(h, r.term, commit, h.logs[r.term])
    ensures var took, reached := Accept(y, i, prev, copied), Min(commit, prev + |copied|);
            && Inv(took) && i < |took.replicas| && took.replicas[i].term == y.replicas[i].term
            && took.replicas[i].commit == y.replicas[i].commit && reached <= |took.replicas[i].log|
            && Committed(took.history, took.replicas[i].term, reached, took.replicas[i].log)
            && MessageOk(took.history, Packet(i, peer, Appended(y.replicas[i].term, Some(prev + |copied|))))
  {
    hide Inv, Coherent, FromLeaders, MessageOk, Committed, Same, Take, FitsOn;
    CoherentOf(y);
    FitsLast(y.history, y.replicas[i], prev, copied);
    LogsFrom(y, i, y.replicas[i].term);
    AcceptInv(y, i, prev, copied);
    CopiedCommitted(y.history, y.replicas[i], i, prev, copied, commit);
    AgreesNow(y, i, peer, prev, copied);
  }

  lemma CoherentOf(y: System)
    requires Inv(y)
    ensures Coherent(y.history)
  {}

  lemma LogsFrom(y: System, i: nat, term: nat)
    requires Inv(y) && i < |y.replicas| && term in y.history.logs
    ensures FromLeaders(y.history.logs, y.replicas[i].log) && FromLeaders(y.history.logs, y.history.logs[term])
  {
    assert ReplicaOk(y.history, y.replicas[i], i);
  }

  lemma SameSize(a: Log, b: Log, n: int)
    requires Same(a, b, n)
    ensures 0 <= n <= |a| && n <= |b|
  {}

  /** What an append says, of a term that has a leader. */
  lemma AppendSays(h: History, peer: nat, i: nat, term: nat, prev: nat, prevTerm: nat, copied: Log, commit: nat)
    requires MessageOk(h, Packet(peer, i, Append(term, prev, prevTerm, copied, commit)))
    ensures term in h.logs && prev + |copied| <= |h.logs[term]| && copied == h.logs[term][prev..prev + |copied|]
    ensures Some(prevTerm) == TermAt(h.logs[term], prev) && Committed(h, term, commit, h.logs[term])
  {}

  /** What the follower now commits its leader had committed, as far as they agree. */
  lemma CopiedCommitted(h: History, r: Replica, i: nat, prev: nat, copied: Log, commit: nat)
    requires Coherent(h) && FromLeaders(h.logs, r.log) && prev <= |r.log| && FitsOn(h, r.term, r.log, prev, copied)
    requires Committed(h, r.term, commit, h.logs[r.term])
    ensures var l, reached := Take(r.log, prev, copied), Min(commit, prev + |copied|);
            reached <= |l| && Committed(AcceptHistory(h, i, r, prev + |copied|), r.term, reached, l)
  {
    var full, last := h.logs[r.term], prev + |copied|;
    var l, reached := Take(r.log, prev, copied), Min(commit, last);
    FullFrom(h, r.term);
    hide Coherent, FromLeaders, Committed, Take, Adds, UpTo, Same, Grows;
    TakeKeeps(h.logs, full, r.log, prev, copied);
    SameSize(l, full, last);
    CommittedLess(h, r.term, commit, reached, full);
    SamePrefix(l, full, last, reached);
    CommittedOfSame(h, r.term, reached, full, l);
    AcceptAdds(h, r, i, last);
    AddsGrows(h, AcceptHistory(h, i, r, last), i, r.term);
    CommittedGrows(h, AcceptHistory(h, i, r, last), r.term, r.term, reached, l);
  }

  lemma AgreesNow(y: System, i: nat, peer: nat, prev: nat, copied: Log)
    requires i < |y.replicas| && prev <= |y.replicas[i].log|
    ensures MessageOk(Accept(y, i, prev, copied).history,
                      Packet(i, peer, Appended(y.replicas[i].term, Some(prev + |copied|))))
  {}

  /** With the entries copied, the follower commits what its leader had, as far as they now agree. */
  lemma Copied(took: System, i: nat, peer: nat, commit: nat, last: nat, was: nat)
    requires Inv(took) && i < |took.replicas| && took.replicas[i].commit == was
    requires var q, reached := took.replicas[i], Min(commit, last);
             reached <= |q.log| && Committed(took.history, q.term, reached, q.log)
    requires MessageOk(took.history, Packet(i, peer, Appended(took.replicas[i].term, Some(last))))
    ensures var reached := Min(commit, last);
            Inv(Sending(if reached > was then CommitTo(took, i, reached) else took,
                        {Packet(i, peer, Appended(took.replicas[i].term, Some(last)))}))
  {
    hide Inv, Committed, MessageOk;
    var reached := Min(commit, last);
    if reached > was {
      CommitInv(took, i, reached);
    }
    Sends(if reached > was then CommitTo(took, i, reached) else took,
          {Packet(i, peer, Appended(took.replicas[i].term, Some(last)))});
  }

  /** An entry a leader counts a majority for, of its own term, is certified. */
  lemma {:induction false} ReachedCertified(h: History, r: Replica, i: nat, at: nat)
    requires LeaderOk(h, r, i) && KnowsOk(h, r, i) && r.role == Leader && at <= |r.log|
    ensures Reached(r, at).Some? ==>
              r.commit < Reached(r, at).value <= |r.log| && Certified(h, r.term, Reached(r, at).value)
  {
    if at > r.commit {
      if TermAt(r.log, at) == Some(r.term) && Holding(r.matched, at) >= MAJORITY {
        var holding := set f | 0 <= f < |r.matched| && r.matched[f] >= at;
        forall f | f in holding ensures f in Agreeing(h, r.term, at) {}
        SubsetSize(holding, Agreeing(h, r.term, at));
      } else {
        ReachedCertified(h, r, i, at - 1);
      }
    }
  }

  lemma AdvanceInv(y: System, i: nat)
    requires Inv(y) && i < |y.replicas| && y.replicas[i].role == Leader
    ensures Inv(Advance(y, i)) && Advance(y, i).replicas[i].role == Leader
  {
    var r, h := y.replicas[i], y.history;
    assert ReplicaOk(h, r, i);
    PastOf(h, r, i);
    ReachedCertified(h, r, i, |r.log|);
    var reached := Reached(r, |r.log|);
    if reached.Some? {
      assert Same(r.log, h.logs[r.term], reached.value);
      assert Committed(h, r.term, reached.value, r.log);
      hide Inv, Committed, Certified, Same;
      CommitInv(y, i, reached.value);
    }
  }

  lemma AppendedInv(y: System, i: nat, peer: nat, term: nat, matched: Option<nat>)
    requires Inv(y) && i < |y.replicas| && MessageOk(y.history, Packet(peer, i, Appended(term, matched)))
    ensures Inv(OnAppended(y, i, peer, term, matched))
  {
    hide Inv, CopyFor, Advance;
    var r := y.replicas[i];
    if r.role == Leader && term == r.term && peer < REPLICAS && peer < |r.next| && peer < |r.matched| {
      var heard := Told(y, i, peer, matched);
      ToldInv(y, i, peer, matched);
      AdvanceInv(heard, i);
      var told := Advance(heard, i);
      OkAt(told, i);
      CopyOk(told.history, told.replicas[i], i, peer);
      Sends(told, {Packet(i, peer, CopyFor(told.replicas[i], peer))});
    }
  }

  lemma SubmitInv(y: System, i: nat, command: nat)
    requires Inv(y) && i < |y.replicas|
    ensures Inv(OnSubmit(y, i, command))
  {
    hide Inv, CopyToEveryone;
    if y.replicas[i].role == Leader {
      PutInv(y, i, command);
      CopyInv(Put(y, i, command), i);
    }
  }

  lemma HandleInv(y: System, i: nat, peer: nat, m: Message)
    requires Inv(y) && i < |y.replicas| && MessageOk(y.history, Packet(peer, i, m))
    requires TermOf(m).Some? ==> TermOf(m).value <= y.replicas[i].term
    ensures Inv(Handle(y, i, peer, m))
  {
    hide Inv, MessageOk, OnPreVoted, OnRequestVote, OnVote, OnAppend, OnAppended, OnSubmit;
    match m
    case PreVote(proposed, end) =>
      var r := y.replicas[i];
      PreVotedOk(y, i, peer, r.term, proposed, proposed > r.term && NotBehind(end, Last(r.log)) && r.leader.None?);
    case PreVoted(_, proposed, granted) => PreVotedInv(y, i, peer, proposed, granted);
    case RequestVote(term, end) => RequestVoteInv(y, i, peer, term, end);
    case Vote(term, granted) => VoteInv(y, i, peer, term, granted);
    case Append(term, prev, prevTerm, copied, commit) =>
      AppendInv(y, i, peer, term, prev, prevTerm, copied, commit);
    case Appended(term, matched) => AppendedInv(y, i, peer, term, matched);
    case Submit(command) => SubmitInv(y, i, command);
  }

  lemma PreVotedOk(y: System, i: nat, peer: nat, term: nat, proposed: nat, granted: bool)
    requires Inv(y)
    ensures Inv(Sending(y, {Packet(i, peer, PreVoted(term, proposed, granted))}))
  {
    Sends(y, {Packet(i, peer, PreVoted(term, proposed, granted))});
  }

  lemma MessageInv(y: System, i: nat, peer: nat, m: Message)
    requires Inv(y) && i < |y.replicas| && MessageOk(y.history, Packet(peer, i, m))
    ensures Inv(OnMessage(y, i, peer, m))
  {
    hide Inv, MessageOk, Handle;
    var term := TermOf(m);
    if term.Some? && term.value > y.replicas[i].term {
      AdoptInv(y, i, term.value);
      HandleInv(Adopt(y, i, term.value), i, peer, m);
    } else {
      HandleInv(y, i, peer, m);
    }
  }

  /** Every step keeps every invariant. */
  lemma StepInv(y: System, step: Step)
    requires Inv(y) && Enabled(y, step)
    ensures Inv(Next(y, step))
  {
    hide OnMessage, OnTimer, ReplicasOk, Coherent, MessageOk;
    match step
    case Timer(i) => TimerInv(y, i);
    case Deliver(p) =>
      assert MessageOk(y.history, p);
      assert p == Packet(p.sender, p.dest, p.message);
      MessageInv(y, p.dest, p.sender, p.message);
    case Client(i, command) =>
      SubmitOk(y.history, i, command);
      MessageInv(y, i, REPLICAS, Submit(command));
  }

  lemma SubmitOk(h: History, i: nat, command: nat)
    ensures MessageOk(h, Packet(REPLICAS, i, Submit(command)))
  {}

  lemma {:induction false} RunInv(ys: seq<System>, steps: seq<Step>, k: nat)
    requires Runs(ys, steps) && k < |ys|
    ensures Inv(ys[k])
  {
    hide Inv, Next;
    if k == 0 {
      StartInv();
    } else {
      RunInv(ys, steps, k - 1);
      StepInv(ys[k - 1], steps[k - 1]);
    }
  }
}
