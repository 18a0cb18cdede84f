/** What every run of the replicated log keeps, and why it stays true as the history grows. */
module ReplogInv {
  import opened Replog
  import opened Wrappers

  // ---------------------------------------------------------------------------------------------
  // Logs and where they come from

  /** `a` and `b` have the same first `n` entries. */
  predicate Same(a: Log, b: Log, n: int) {
    0 <= n <= |a| && n <= |b| && a[..n] == b[..n]
  }

  /** Every entry of a log stands in it exactly as in the log of the leader whose term it is from, with
      everything before it. */
  ghost predicate FromLeaders(logs: map<nat, Log>, log: Log) {
    forall i :: 0 <= i < |log| ==> log[i].term in logs && Same(log, logs[log[i].term], i + 1)
  }

  predicate UpTo(log: Log, term: nat) {
    forall i :: 0 <= i < |log| ==> log[i].term <= term
  }

  /** Two logs with an entry of one term at one place agree as far as that place. */
  lemma Matching(logs: map<nat, Log>, a: Log, b: Log, i: nat)
    requires FromLeaders(logs, a) && FromLeaders(logs, b)
    requires i < |a| && i < |b| && a[i].term == b[i].term
    ensures Same(a, b, i + 1)
  {
    var t := a[i].term;
    assert Same(a, logs[t], i + 1) && Same(b, logs[t], i + 1);
  }

  lemma SamePrefix(a: Log, b: Log, n: int, m: int)
    requires Same(a, b, n) && 0 <= m <= n
    ensures Same(a, b, m)
  {
    assert a[..m] == a[..n][..m] && b[..m] == b[..n][..m];
  }

  lemma SameAt(a: Log, b: Log, n: int, i: nat)
    requires Same(a, b, n) && i < n
    ensures a[i] == b[i]
  {
    assert a[..n][i] == b[..n][i];
  }

  /** A log is the log of its last entry's leader, as far as it goes. */
  lemma LastsLeader(logs: map<nat, Log>, log: Log)
    requires FromLeaders(logs, log) && log != []
    ensures var t := log[|log| - 1].term; t in logs && Same(log, logs[t], |log|)
  {}

  // ---------------------------------------------------------------------------------------------
  // What the history says

  /** Three of the five. */
  predicate Majority(s: set<nat>) {
    |s| >= MAJORITY && forall v :: v in s ==> v < REPLICAS
  }

  lemma {:induction false} SubsetSize(a: set<nat>, b: set<nat>)
    requires a <= b
    ensures |a| <= |b|
  {
    if a != {} {
      var x :| x in a;
      SubsetSize(a - {x}, b - {x});
    }
  }

  /** Any two majorities share a replica. */
  lemma MajoritiesMeet(a: set<nat>, b: set<nat>) returns (v: nat)
    requires Majority(a) && Majority(b)
    ensures v in a && v in b
  {
    var all := {0, 1, 2, 3, 4};
    assert |all| == 5 && a <= all && b <= all;
    SubsetSize(a + b, all);
    assert a * b == {} ==> |a + b| == |a| + |b|;
    v :| v in a * b;
  }

  /** `v` told the leader of `t` that it agrees as far as an entry of that term at place `n`. */
  predicate Acked(h: History, v: nat, t: nat, n: nat) {
    && (v, t) in h.acked && 0 < n <= h.acked[(v, t)]
    && t in h.logs && n <= |h.logs[t]| && h.logs[t][n - 1].term == t
  }

  /** Some leader after `t` and before `end` was elected without the first `n` entries of `t`'s log. */
  ghost predicate Lost(h: History, t: nat, n: nat, end: nat)
    requires t in h.logs
  {
    exists u :: t < u < end && u in h.logs && !Same(h.logs[u], h.logs[t], n)
  }

  function Agreeing(h: History, t: nat, n: nat): set<nat> {
    set v | 0 <= v < REPLICAS && (v, t) in h.acked && h.acked[(v, t)] >= n
  }

  /** A majority holds the first `n` entries of the leader of `t`, the last of them from its own term. */
  predicate Certified(h: History, t: nat, n: nat) {
    t in h.logs && 0 < n <= |h.logs[t]| && h.logs[t][n - 1].term == t && |Agreeing(h, t, n)| >= MAJORITY
  }

  /** The first `k` entries of `log` are a certified leader's, of a term no later than `end`. */
  ghost predicate Committed(h: History, end: nat, k: nat, log: Log) {
    k > 0 ==> exists t: nat, n: nat :: Certified(h, t, n) && t <= end && k <= n && Same(log, h.logs[t], k)
  }

  // ---------------------------------------------------------------------------------------------
  // The invariants: what must be so of each replica beside the history

  ghost predicate VoterOk(h: History, r: Replica, i: nat) {
    && (r.votedFor.Some? ==> (i, r.term) in h.voted && h.voted[(i, r.term)] == r.votedFor.value)
    && (r.votedFor.None? ==> (i, r.term) !in h.voted)
    && (r.role == Candidate ==>
          && (r.term, i) in h.stood && h.stood[(r.term, i)] == r.log
          && (forall v :: v in r.votes ==> v < REPLICAS && (v, r.term) in h.voted && h.voted[(v, r.term)] == i)
          && (r.term in h.leads ==> h.leads[r.term] != i))
  }

  ghost predicate LeaderOk(h: History, r: Replica, i: nat) {
    && (r.role == Leader ==>
          && r.term in h.leads && h.leads[r.term] == i && r.term in h.logs && h.logs[r.term] == r.log
          && |r.next| == REPLICAS && |r.matched| == REPLICAS)
    && (forall t :: t in r.led ==> t in h.leads && h.leads[t] == i)
  }

  /** A leader knows no more of anyone than they have told it. */
  ghost predicate KnowsOk(h: History, r: Replica, i: nat) {
    r.role == Leader ==>
      && (i, r.term) in h.acked && h.acked[(i, r.term)] == |r.log|
      && (forall f :: 0 <= f < |r.matched| && r.matched[f] > 0 ==>
            (f, r.term) in h.acked && r.matched[f] <= h.acked[(f, r.term)])
      && (forall f :: 0 <= f < |r.next| ==> r.next[f] <= |r.log| + 1)
  }

  /** A replica still holds whatever it told a leader it agreed to, unless a later leader never had it. */
  ghost predicate HoldsOne(h: History, r: Replica, v: nat) {
    forall t: nat, n: nat :: Acked(h, v, t, n) ==> Same(r.log, h.logs[t], n) || Lost(h, t, n, r.term + 1)
  }

  ghost predicate CommitOk(h: History, r: Replica) {
    r.commit <= |r.log| && r.applied == Ops(r.log[..r.commit]) && Committed(h, r.term, r.commit, r.log)
  }

  /** What a replica's term and role must be for what it did. */
  ghost predicate Past(h: History, r: Replica, v: nat) {
    && (forall t :: (v, t) in h.voted ==> t <= r.term)
    && (forall t :: (t, v) in h.stood ==> t <= r.term)
    && (forall t :: (v, t) in h.acked ==> t <= r.term)
    && (forall t :: t in h.leads && h.leads[t] == v ==> t <= r.term && (t == r.term ==> r.role == Leader))
  }

  ghost predicate ReplicaOk(h: History, r: Replica, i: nat) {
    && FromLeaders(h.logs, r.log) && UpTo(r.log, r.term) && Past(h, r, i)
    && VoterOk(h, r, i) && LeaderOk(h, r, i) && KnowsOk(h, r, i) && HoldsOne(h, r, i) && CommitOk(h, r)
  }

  // ---------------------------------------------------------------------------------------------
  // What must be so of the history by itself

  /** The leader of a term was elected by a majority that voted for it, and led with the log it stood with
      and what it has added since. */
  ghost predicate Elected(h: History, t: nat)
    requires t in h.leads && t in h.logs && t in h.electors
  {
    var c := h.leads[t];
    && (t, c) in h.stood && h.stood[(t, c)] <= h.logs[t] && Majority(h.electors[t])
    && (forall v :: v in h.electors[t] ==> (v, t) in h.voted && h.voted[(v, t)] == c)
  }

  /** Whoever `v` voted for in `u` stood with whatever `v` had agreed to, unless an earlier leader never had
      it. */
  ghost predicate SawOne(h: History, v: nat, u: nat)
    requires (v, u) in h.voted && (u, h.voted[(v, u)]) in h.stood
  {
    forall t: nat, n: nat :: t < u && Acked(h, v, t, n) ==>
      Same(h.stood[(u, h.voted[(v, u)])], h.logs[t], n) || Lost(h, t, n, u)
  }

  /** It is so of every vote that elected a leader, or may yet. */
  ghost predicate Saw(h: History) {
    forall k: (nat, nat) :: k in h.voted && (k.1, h.voted[k]) in h.stood
                            && (k.1 !in h.logs || (k.1 in h.electors && k.0 in h.electors[k.1])) ==>
      SawOne(h, k.0, k.1)
  }

  ghost predicate LogsCoherent(h: History) {
    forall t :: t in h.logs ==> FromLeaders(h.logs, h.logs[t]) && UpTo(h.logs[t], t)
  }

  ghost predicate StoodCoherent(h: History) {
    forall k: (nat, nat) :: k in h.stood ==> FromLeaders(h.logs, h.stood[k]) && k.0 > 0 && UpTo(h.stood[k], k.0 - 1)
  }

  ghost predicate ElectionsCoherent(h: History) {
    && h.leads.Keys == h.logs.Keys && h.electors.Keys == h.logs.Keys
    && (forall k: (nat, nat) :: k in h.voted ==> (k.1, h.voted[k]) in h.stood)
    && (forall t :: t in h.leads ==> Elected(h, t))
  }

  ghost predicate AcksCoherent(h: History) {
    forall k: (nat, nat) :: k in h.acked ==> k.1 in h.logs && h.acked[k] <= |h.logs[k.1]|
  }

  /** Nobody did anything but the replicas there are. */
  ghost predicate ByReplicas(h: History) {
    && (forall k: (nat, nat) :: k in h.voted ==> k.0 < REPLICAS)
    && (forall k: (nat, nat) :: k in h.stood ==> k.1 < REPLICAS)
    && (forall k: (nat, nat) :: k in h.acked ==> k.0 < REPLICAS)
    && (forall t :: t in h.leads ==> h.leads[t] < REPLICAS)
  }

  ghost predicate Coherent(h: History) {
    LogsCoherent(h) && StoodCoherent(h) && ElectionsCoherent(h) && AcksCoherent(h) && ByReplicas(h) && Saw(h)
  }

  /** What a message says is so. */
  ghost predicate MessageOk(h: History, p: Packet) {
    match p.message
    case Vote(t, granted) => granted ==> (p.sender, t) in h.voted && h.voted[(p.sender, t)] == p.dest
    case RequestVote(t, end) => (t, p.sender) in h.stood && end == Last(h.stood[(t, p.sender)])
    case Append(t, prev, prevTerm, copied, commit) =>
      && t in h.logs && prev + |copied| <= |h.logs[t]| && copied == h.logs[t][prev..prev + |copied|]
      && Some(prevTerm) == TermAt(h.logs[t], prev) && Committed(h, t, commit, h.logs[t])
    case Appended(t, matched) => matched.Some? ==> (p.sender, t) in h.acked && matched.value <= h.acked[(p.sender, t)]
    case _ => true
  }

  ghost predicate MessagesOk(h: History, sent: set<Packet>) {
    forall p :: p in sent ==> MessageOk(h, p)
  }

  ghost predicate ReplicasOk(h: History, rs: seq<Replica>) {
    |rs| == REPLICAS && forall i :: 0 <= i < |rs| ==> ReplicaOk(h, rs[i], i)
  }

  ghost predicate Inv(y: System) {
    ReplicasOk(y.history, y.replicas) && Coherent(y.history) && MessagesOk(y.history, y.sent)
  }

  lemma StartInv()
    ensures Inv(Start())
  {
    assert BLANK.log[..0] == [];
  }

  // ---------------------------------------------------------------------------------------------
  // Leader completeness

  /** Every later leader's log holds what a majority agreed to. A majority elected it, so one of its voters
      had agreed; and the rule that a log which is behind is refused did the rest. */
  lemma {:induction false} LeaderComplete(h: History, t: nat, n: nat, u: nat)
    requires Coherent(h) && Certified(h, t, n) && t < u && u in h.logs
    ensures Same(h.logs[u], h.logs[t], n)
    decreases u
  {
    assert Elected(h, u);
    var c := h.leads[u];
    var v := MajoritiesMeet(Agreeing(h, t, n), h.electors[u]);
    assert Acked(h, v, t, n);
    assert SawOne(h, v, u) by { assert (v, u) in h.voted; }
    if Lost(h, t, n, u) {
      var w :| t < w < u && w in h.logs && !Same(h.logs[w], h.logs[t], n);
      LeaderComplete(h, t, n, w);
    } else {
      var stood := h.stood[(u, c)];
      assert Same(stood, h.logs[t], n);
      assert h.logs[u][..n] == stood[..n];
    }
  }

  // ---------------------------------------------------------------------------------------------
  // The history only grows

  /** A leader's log has only been added to, and only with entries of its own term. */
  predicate Longer(a: Log, b: Log, t: nat) {
    |a| <= |b| && b[..|a|] == a && forall i :: |a| <= i < |b| ==> b[i].term == t
  }

  ghost predicate Grows(h: History, g: History) {
    && (forall t :: t in h.logs ==> t in g.logs && Longer(h.logs[t], g.logs[t], t))
    && (forall t :: t in h.leads ==> t in g.leads && g.leads[t] == h.leads[t])
    && (forall t :: t in h.electors ==> t in g.electors && g.electors[t] == h.electors[t])
    && (forall k: (nat, nat) :: k in h.voted ==> k in g.voted && g.voted[k] == h.voted[k])
    && (forall k: (nat, nat) :: k in h.stood ==> k in g.stood && g.stood[k] == h.stood[k])
    && (forall k: (nat, nat) :: k in h.acked ==> k in g.acked && g.acked[k] >= h.acked[k])
  }

  lemma SameLonger(a: Log, b: Log, c: Log, t: nat, n: int)
    requires Same(a, b, n) && Longer(b, c, t)
    ensures Same(a, c, n)
  {
    assert c[..n] == c[..|b|][..n];
  }

  lemma FromLeadersGrows(h: History, g: History, log: Log)
    requires Grows(h, g) && FromLeaders(h.logs, log)
    ensures FromLeaders(g.logs, log)
  {
    forall i | 0 <= i < |log| ensures log[i].term in g.logs && Same(log, g.logs[log[i].term], i + 1) {
      SameLonger(log, h.logs[log[i].term], g.logs[log[i].term], log[i].term, i + 1);
    }
  }

  /** A leader elected without some entries never comes by them: it only adds entries of its own term. */
  lemma LacksStill(a: Log, b: Log, c: Log, u: nat, t: nat, n: nat)
    requires Longer(a, b, u) && t < u && 0 < n <= |c| && c[n - 1].term == t && !Same(a, c, n)
    ensures !Same(b, c, n)
  {
    if n <= |a| {
      assert b[..|a|][..n] == b[..n];
    } else if Same(b, c, n) {
      SameAt(b, c, n, n - 1);
    }
  }

  lemma SameShorter(a: Log, b: Log, c: Log, t: nat, n: nat)
    requires Longer(b, c, t) && 0 < n <= |b|
    ensures Same(a, c, n) <==> Same(a, b, n)
    ensures c[n - 1] == b[n - 1]
  {
    assert c[..n] == c[..|b|][..n];
    assert c[n - 1] == c[..|b|][n - 1];
  }

  lemma LostGrows(h: History, g: History, t: nat, n: nat, end: nat, later: nat)
    requires Grows(h, g) && t in h.logs && 0 < n <= |h.logs[t]| && h.logs[t][n - 1].term == t
    requires Lost(h, t, n, end) && end <= later
    ensures Lost(g, t, n, later)
  {
    var u :| t < u < end && u in h.logs && !Same(h.logs[u], h.logs[t], n);
    SameShorter(h.logs[u], h.logs[t], g.logs[t], t, n);
    LacksStill(h.logs[u], g.logs[u], g.logs[t], u, t, n);
  }

  lemma AckedStill(h: History, g: History, v: nat, t: nat, n: nat)
    requires Grows(h, g) && Acked(g, v, t, n) && t in h.logs && (v, t) in h.acked && g.acked[(v, t)] == h.acked[(v, t)]
    requires h.acked[(v, t)] <= |h.logs[t]|
    ensures Acked(h, v, t, n)
  {
    assert g.logs[t][..|h.logs[t]|][n - 1] == h.logs[t][n - 1];
  }

  lemma CertifiedGrows(h: History, g: History, t: nat, n: nat)
    requires Grows(h, g) && Certified(h, t, n)
    ensures Certified(g, t, n)
  {
    assert g.logs[t][..|h.logs[t]|][n - 1] == h.logs[t][n - 1];
    SubsetSize(Agreeing(h, t, n), Agreeing(g, t, n));
  }

  lemma CommittedGrows(h: History, g: History, end: nat, later: nat, k: nat, log: Log)
    requires Grows(h, g) && Committed(h, end, k, log) && end <= later
    ensures Committed(g, later, k, log)
  {
    if k > 0 {
      var t: nat, n: nat :| Certified(h, t, n) && t <= end && k <= n && Same(log, h.logs[t], k);
      CertifiedGrows(h, g, t, n);
      SameLonger(log, h.logs[t], g.logs[t], t, k);
    }
  }

  lemma CommittedLonger(h: History, end: nat, k: nat, log: Log, longer: Log)
    requires Committed(h, end, k, log) && log <= longer
    ensures Committed(h, end, k, longer)
  {
    if k > 0 {
      var t: nat, n: nat :| Certified(h, t, n) && t <= end && k <= n && Same(log, h.logs[t], k);
      assert longer[..k] == log[..k];
      assert Same(longer, h.logs[t], k);
    }
  }

  lemma LongerHolds(a: Log, b: Log, t: nat, start: nat, end: nat)
    requires Longer(a, b, t) && start <= end <= |a|
    ensures a <= b && b[start..end] == a[start..end]
    ensures TermAt(b, start) == TermAt(a, start)
  {
    forall k | start <= k < end ensures b[k] == a[k] { assert b[..|a|][k] == b[k]; }
    if start > 0 { assert b[start - 1] == b[..|a|][start - 1]; }
  }

  lemma MessageGrows(h: History, g: History, p: Packet)
    requires Grows(h, g) && MessageOk(h, p)
    ensures MessageOk(g, p)
  {
    match p.message
    case Append(t, prev, prevTerm, copied, commit) =>
      LongerHolds(h.logs[t], g.logs[t], t, prev, prev + |copied|);
      CommittedGrows(h, g, t, t, commit, h.logs[t]);
      CommittedLonger(g, t, commit, h.logs[t], g.logs[t]);
    case _ =>
  }

  lemma MessagesGrow(h: History, g: History, sent: set<Packet>)
    requires Grows(h, g) && MessagesOk(h, sent)
    ensures MessagesOk(g, sent)
  {
    forall p | p in sent ensures MessageOk(g, p) {
      MessageGrows(h, g, p);
    }
  }
}
