/** The replicated log's rules, said of one replica's own term, log and counts: when a vote is given, when a
    candidate leads, what a copy does to a log, and how far a leader commits. */
module ReplogRules {
  import opened Replog
  import opened Wrappers

  /** More than half of the replicas. */
  predicate MostOf(s: set<nat>) {
    2 * |s| > REPLICAS
  }

  /** The term of a log's last entry, or nought for a log with none. */
  function LastTerm(log: Log): nat {
    if |log| == 0 then 0 else log[|log| - 1].term
  }

  /** A log ending in a later term than another, or in the same term and no shorter. */
  predicate UpToDate(term: nat, length: nat, log: Log) {
    term > LastTerm(log) || (term == LastTerm(log) && length >= |log|)
  }

  /** Only replica `i` has changed, to `q`, and these packets are on the wire as well. */
  predicate Becomes(y: System, z: System, i: nat, q: Replica, sent: set<Packet>) {
    i < |y.replicas| && z.replicas == y.replicas[i := q] && z.sent == y.sent + sent
  }

  // ---------------------------------------------------------------------------------------------
  // How far a leader commits

  /** An entry past what is committed, of the leader's own term, that most replicas are known to hold. */
  ghost predicate HeldByMost(r: Replica, n: nat) {
    r.commit < n <= |r.log| && r.log[n - 1].term == r.term && MostOf(set f | 0 <= f < |r.matched| && r.matched[f] >= n)
  }

  /** How far a leader has committed is the furthest such entry, or as far as before when there is none; and it has
      applied what it has committed. */
  ghost predicate CommitsFurthest(r: Replica, q: Replica) {
    && (forall n: nat :: HeldByMost(r, n) ==> n <= q.commit)
    && (q.commit == r.commit || HeldByMost(r, q.commit))
    && q == r.(commit := q.commit, applied := q.applied)
    && (q.commit == r.commit ==> q.applied == r.applied)
    && (q.commit > r.commit ==> q.applied == r.applied + Ops(r.log[Min(|r.applied|, q.commit)..q.commit]))
  }

  lemma {:induction false} ReachedFurthest(r: Replica, at: nat)
    requires at <= |r.log|
    ensures forall n: nat :: HeldByMost(r, n) && n <= at ==> Reached(r, at).Some? && n <= Reached(r, at).value
    ensures Reached(r, at).Some? ==> Reached(r, at).value <= at && HeldByMost(r, Reached(r, at).value)
  {
    if at > r.commit {
      ReachedFurthest(r, at - 1);
      assert Holding(r.matched, at) == |set f | 0 <= f < |r.matched| && r.matched[f] >= at|;
    }
  }

  lemma AdvanceCommits(y: System, i: nat)
    requires i < |y.replicas|
    ensures CommitsFurthest(y.replicas[i], Advance(y, i).replicas[i])
    ensures Becomes(y, Advance(y, i), i, Advance(y, i).replicas[i], {})
  {
    ReachedFurthest(y.replicas[i], |y.replicas[i].log|);
  }

  /** A leader hearing from a follower in its own term believes the most it has ever been told of it, and then commits
      as far as most replicas hold; told that the entry before its copy was not held, it goes one entry back. It
      copies again to a follower that is still behind. */
  lemma AnswerCommits(y: System, i: nat, peer: nat, term: nat, matched: Option<nat>)
    requires i < |y.replicas|
    ensures var r, z := y.replicas[i], OnAppended(y, i, peer, term, matched);
            if r.role != Leader || term != r.term || peer >= REPLICAS || peer >= |r.next| || peer >= |r.matched| then z == y
            else
              var held := if matched.Some? && matched.value > r.matched[peer] then matched.value else r.matched[peer];
              var next := if matched.Some? then held + 1 else if r.next[peer] > 1 then r.next[peer] - 1 else 1;
              var told := r.(next := r.next[peer := next], matched := r.matched[peer := held]);
              && |z.replicas| == |y.replicas| && CommitsFurthest(told, z.replicas[i])
              && Becomes(y, z, i, z.replicas[i],
                         if matched.None? || next <= |r.log| then {Packet(i, peer, CopyFor(z.replicas[i], peer))} else {})
  {
    hide CopyFor, Advance, Told, CommitsFurthest;
    var r := y.replicas[i];
    if !(r.role != Leader || term != r.term || peer >= REPLICAS || peer >= |r.next| || peer >= |r.matched|) {
      ToldIs(y, i, peer, matched);
      AdvanceCommits(Told(y, i, peer, matched), i);
      KeepsLog(Told(y, i, peer, matched), i);
    }
  }

  lemma ToldIs(y: System, i: nat, peer: nat, matched: Option<nat>)
    requires i < |y.replicas| && peer < |y.replicas[i].next| && peer < |y.replicas[i].matched|
    ensures var r := y.replicas[i];
            var held := if matched.Some? && matched.value > r.matched[peer] then matched.value else r.matched[peer];
            var next := if matched.Some? then held + 1 else if r.next[peer] > 1 then r.next[peer] - 1 else 1;
            var told := r.(next := r.next[peer := next], matched := r.matched[peer := held]);
            Told(y, i, peer, matched) == y.(replicas := y.replicas[i := told])
  {
    var r := y.replicas[i];
    assert r.matched[peer := r.matched[peer]] == r.matched;
  }

  lemma KeepsLog(y: System, i: nat)
    requires i < |y.replicas|
    ensures Advance(y, i).replicas[i].log == y.replicas[i].log
  {
    hide Reached, Ops;
  }

  /** What a copy carries: everything after the entry a follower is believed to hold, and how far the leader has
      committed. */
  lemma CopyCarries(r: Replica, follower: nat)
    requires follower < |r.next| && 1 <= r.next[follower] <= |r.log| + 1
    ensures var prev := r.next[follower] - 1;
            CopyFor(r, follower)
            == Append(r.term, prev, if prev == 0 then 0 else r.log[prev - 1].term, r.log[prev..], r.commit)
  {}

  // ---------------------------------------------------------------------------------------------
  // What a copy does to a log

  /** Copied entries are kept where the log holds them already; from the first it does not hold, or holds otherwise,
      they take the place of all that was there. */
  lemma {:induction false} TakeReplaces(log: Log, prev: nat, copied: Log) returns (k: nat)
    requires prev <= |log|
    ensures k <= |copied| && forall j :: 0 <= j < k ==> prev + j < |log| && log[prev + j].term == copied[j].term
    ensures k < |copied| ==> prev + k >= |log| || log[prev + k].term != copied[k].term
    ensures prev + k <= |log| && Take(log, prev, copied) == if k == |copied| then log else log[..prev + k] + copied[k..]
    decreases copied
  {
    if copied == [] {
      k := 0;
    } else if prev < |log| && log[prev].term == copied[0].term {
      k := TakeReplaces(log, prev + 1, copied[1..]);
      k := k + 1;
      assert copied[k..] == copied[1..][k - 1..];
    } else {
      k := 0;
      TakeOn(log[..prev], copied);
    }
  }

  lemma {:induction false} TakeOn(log: Log, copied: Log)
    requires copied != []
    ensures Take(log + [copied[0]], |log| + 1, copied[1..]) == log + copied
    ensures forall rest: Log :: Take(rest, |rest|, []) == rest
    decreases copied
  {
    var one := log + [copied[0]];
    if copied[1..] != [] {
      assert one[..|one|] == one;
      TakeOn(one, copied[1..]);
      assert one + copied[1..] == log + copied;
    } else {
      assert log + copied == one;
    }
  }

  /** When a copy is refused, and what it does when it is not: the follower heeds its leader, takes what was copied,
      commits as far as the leader had and it now holds, applies that, and answers with how far they agree. */
  lemma AppendAnswers(y: System, i: nat, peer: nat, term: nat, prev: nat, prevTerm: nat, copied: Log, commit: nat)
    requires i < |y.replicas| && peer < REPLICAS
    ensures var r, z := y.replicas[i], OnAppend(y, i, peer, term, prev, prevTerm, copied, commit);
            var refused := {Packet(i, peer, Appended(r.term, None))};
            if term < r.term || r.role == Leader then Becomes(y, z, i, r, refused)
            else
              var heeding := r.(role := Follower, votes := if r.role == Candidate then {} else r.votes,
                                leader := Some(peer), prevotes := {});
              if prev > |r.log| || prevTerm != (if prev == 0 then 0 else r.log[prev - 1].term) then Becomes(y, z, i, heeding, refused)
              else
                var took := heeding.(log := Take(r.log, prev, copied));
                var upTo := if commit < prev + |copied| then commit else prev + |copied|;
                Becomes(y, z, i,
                        if upTo <= r.commit then took
                        else took.(commit := upTo,
                                   applied := r.applied + Ops(took.log[Min(|r.applied|, Min(upTo, |took.log|))..Min(upTo, |took.log|)])),
                        {Packet(i, peer, Appended(term, Some(prev + |copied|)))})
  {
    hide Take, Ops;
  }

  // ---------------------------------------------------------------------------------------------
  // Elections

  /** A replica says another could stand exactly when the term asked about is past its own, the asker's log is up to
      date with its own, and it is following nobody; and saying so changes nothing. */
  lemma CouldStandIff(y: System, i: nat, peer: nat, proposed: nat, end: LogEnd)
    requires i < |y.replicas|
    ensures var r := y.replicas[i];
            Becomes(y, OnPreVote(y, i, peer, proposed, end), i, r,
                    {Packet(i, peer, PreVoted(r.term, proposed,
                                              proposed > r.term && UpToDate(end.term, end.index, r.log) && r.leader.None?))})
  {}

  /** A replica stands once most, itself among them, have said it could: in the next term, with its own vote, asking
      everyone else for theirs. */
  lemma StandsWhenMostSay(y: System, i: nat, peer: nat, proposed: nat, granted: bool)
    requires i < |y.replicas|
    ensures var r, z := y.replicas[i], OnPreVoted(y, i, peer, proposed, granted);
            var counts := i in r.prevotes && proposed == r.term + 1 && granted && peer < REPLICAS;
            if !counts then z == y
            else if !MostOf(r.prevotes + {peer}) then Becomes(y, z, i, r.(prevotes := r.prevotes + {peer}), {})
            else Becomes(y, z, i,
                         r.(term := r.term + 1, role := Candidate, votedFor := Some(i), leader := None, votes := {i}, prevotes := {}),
                         ToOthers(i, RequestVote(r.term + 1, LogEnd(LastTerm(r.log), |r.log|))))
  {}

  /** A vote is given exactly in the voter's own term, to a candidate whose log is up to date with the voter's, if
      the term's vote is unspent or was this candidate's already. */
  lemma VotesIff(y: System, i: nat, peer: nat, term: nat, end: LogEnd)
    requires i < |y.replicas| && peer < REPLICAS
    ensures var r := y.replicas[i];
            var given := term == r.term && UpToDate(end.term, end.index, r.log) && (r.votedFor.None? || r.votedFor.value == peer);
            Becomes(y, OnRequestVote(y, i, peer, term, end), i, if given then r.(votedFor := Some(peer)) else r,
                    {Packet(i, peer, Vote(r.term, given))})
  {}

  /** What a replica is once it leads: with one more entry on its log, of its own term, and everyone else believed
      to hold all but that one. */
  predicate Leads(r: Replica, q: Replica, i: nat) {
    var log := r.log + [Entry(r.term, Noop)];
    && q == r.(role := Leader, log := log, led := r.led + {r.term}, leader := Some(i), votes := {}, prevotes := {},
               next := q.next, matched := q.matched)
    && |q.next| == |q.matched| == REPLICAS
    && (forall f :: 0 <= f < REPLICAS ==> q.next[f] == |log| && q.matched[f] == if f == i then |log| else 0)
  }

  /** A candidate leads once most have voted for it in its term, and copies its new entry to everyone. */
  lemma LeadsWhenMostVote(y: System, i: nat, peer: nat, term: nat, granted: bool)
    requires i < |y.replicas|
    ensures var r, z := y.replicas[i], OnVote(y, i, peer, term, granted);
            if r.role != Candidate || term != r.term || !granted || peer >= REPLICAS then z == y
            else if !MostOf(r.votes + {peer}) then Becomes(y, z, i, r.(votes := r.votes + {peer}), {})
            else
              && |z.replicas| == |y.replicas| && Leads(r, z.replicas[i], i)
              && Becomes(y, z, i, z.replicas[i], ToOthers(i, Append(r.term, |r.log|, LastTerm(r.log), [Entry(r.term, Noop)], r.commit)))
  {
    hide CopyFor, Leads, Lead, CopyToEveryone;
    var r := y.replicas[i];
    if r.role == Candidate && term == r.term && granted && peer < REPLICAS && MostOf(r.votes + {peer}) {
      LeadCopies(Set(y, i, r.(votes := r.votes + {peer})), i);
      LeadsSame(r, peer, i);
    }
  }

  lemma LeadsSame(r: Replica, peer: nat, i: nat)
    ensures forall q :: Leads(r.(votes := r.votes + {peer}), q, i) <==> Leads(r, q, i)
  {}

  lemma LeadCopies(y: System, i: nat)
    requires i < |y.replicas|
    ensures var r, z := y.replicas[i], CopyToEveryone(Lead(y, i), i);
            && |z.replicas| == |y.replicas| && Leads(r, z.replicas[i], i)
            && Becomes(y, z, i, z.replicas[i], ToOthers(i, Append(r.term, |r.log|, LastTerm(r.log), [Entry(r.term, Noop)], r.commit)))
  {
    var r, q := y.replicas[i], Lead(y, i).replicas[i];
    hide CopyFor;
    forall other: nat | other < REPLICAS
      ensures CopyFor(q, other) == Append(r.term, |r.log|, LastTerm(r.log), [Entry(r.term, Noop)], r.commit)
    {
      CopyCarries(q, other);
      assert q.log[|r.log|..] == [Entry(r.term, Noop)];
    }
    var m := Append(r.term, |r.log|, LastTerm(r.log), [Entry(r.term, Noop)], r.commit);
    EachTheSame(q, i, m);
  }

  lemma EachTheSame(q: Replica, i: nat, m: Message)
    requires forall other: nat :: other < REPLICAS ==> CopyFor(q, other) == m
    ensures (set other | 0 <= other < REPLICAS && other != i :: Packet(i, other, CopyFor(q, other))) == ToOthers(i, m)
  {
    hide CopyFor;
    var each := set other | 0 <= other < REPLICAS && other != i :: Packet(i, other, CopyFor(q, other));
    forall p ensures p in each <==> p in ToOthers(i, m) {
      if p in ToOthers(i, m) {
        assert p == Packet(i, p.dest, CopyFor(q, p.dest));
      }
    }
  }

  /** A later term is taken up by following nobody, with the vote of that term unspent; and nothing else changes. */
  lemma LaterTermTakenUp(y: System, i: nat, term: nat)
    requires i < |y.replicas|
    ensures var r := y.replicas[i];
            Becomes(y, Adopt(y, i, term), i,
                    r.(term := term, role := Follower, votedFor := None, leader := None,
                       votes := if r.role == Follower then r.votes else {}), {})
  {}

  /** What goes to the others goes to every other replica, and to nobody else. */
  lemma OthersHear(i: nat, m: Message, p: Packet)
    ensures p in ToOthers(i, m) <==> p.sender == i && p.dest < REPLICAS && p.dest != i && p.message == m
  {}

  /** A timer that runs out has a leader copy its log again, and anyone else ask whether it could stand, spending
      nothing. */
  lemma TimerAsks(y: System, i: nat)
    requires i < |y.replicas|
    ensures var r := y.replicas[i];
            if r.role == Leader then
              Becomes(y, OnTimer(y, i), i, r, set other | 0 <= other < REPLICAS && other != i :: Packet(i, other, CopyFor(r, other)))
            else
              Becomes(y, OnTimer(y, i), i, r.(leader := None, prevotes := {i}),
                      ToOthers(i, PreVote(r.term + 1, LogEnd(LastTerm(r.log), |r.log|))))
  {}

  /** A command is taken exactly by a leader whose log does not hold it yet, and goes on the end of that log. */
  lemma CommandTakenIff(y: System, i: nat, command: nat)
    requires i < |y.replicas|
    ensures var r, z := y.replicas[i], OnSubmit(y, i, command);
            if r.role != Leader || (exists k :: 0 <= k < |r.log| && r.log[k].op == Command(command)) then z == y
            else
              var log := r.log + [Entry(r.term, Command(command))];
              var q := r.(log := log, matched := if i < |r.matched| then r.matched[i := |log|] else r.matched);
              Becomes(y, z, i, q, set other | 0 <= other < REPLICAS && other != i :: Packet(i, other, CopyFor(q, other)))
  {}

  /** What a message is to a replica: in a term later than its own, that term is taken up first. */
  lemma TermTakenUpFirst(y: System, i: nat, peer: nat, m: Message)
    requires i < |y.replicas|
    ensures var term := match m
              case PreVoted(t, _, _) => Some(t)
              case RequestVote(t, _) => Some(t)
              case Vote(t, _) => Some(t)
              case Append(t, _, _, _, _) => Some(t)
              case Appended(t, _) => Some(t)
              case _ => None;
            OnMessage(y, i, peer, m)
            == Handle(if term.Some? && term.value > y.replicas[i].term then Adopt(y, i, term.value) else y, i, peer, m)
  {
    hide Handle, Adopt;
  }
}
