/** The replicated log as a machine over its steps: five replicas, every message any of them ever sent,
    and a record of who voted for whom, who led, and who holds what.

    A message once sent may be delivered late, in any order, many times or never. Beside each replica's
    own state stands a history no replica reads: it is only written, and only so that what the protocol
    keeps can be said. */
module Replog {
  import opened Wrappers

  const REPLICAS := 5
  const MAJORITY := 3

  datatype Op = Noop | Command(command: nat)
  datatype Entry = Entry(term: nat, op: Op)
  type Log = seq<Entry>

  datatype Role = Follower | Candidate | Leader

  /** Where a log ends: the term of its last entry, and how many it has. */
  datatype LogEnd = LogEnd(term: nat, index: nat)

  datatype Message =
    | PreVote(proposed: nat, end: LogEnd)
    | PreVoted(term: nat, proposed: nat, granted: bool)
    | RequestVote(term: nat, end: LogEnd)
    | Vote(term: nat, granted: bool)
    | Append(term: nat, prevIndex: nat, prevTerm: nat, entries: Log, commit: nat)
    | Appended(term: nat, matched: Option<nat>)
    | Submit(command: nat)

  datatype Packet = Packet(sender: nat, dest: nat, message: Message)

  datatype Replica = Replica(
    term: nat, role: Role, votedFor: Option<nat>, commit: nat, log: Log, applied: seq<Op>, led: set<nat>,
    leader: Option<nat>, prevotes: set<nat>, votes: set<nat>, next: seq<nat>, matched: seq<nat>)

  const BLANK := Replica(0, Follower, None, 0, [], [], {}, None, {}, {}, [], [])

  /** What happened: the log of each term's leader as far as it got, who that was and who elected it, every
      vote, the log each candidate stood with, and how far each replica has told each leader it agrees. */
  datatype History = History(
    logs: map<nat, Log>, leads: map<nat, nat>, electors: map<nat, set<nat>>,
    voted: map<(nat, nat), nat>, stood: map<(nat, nat), Log>, acked: map<(nat, nat), nat>)

  datatype System = System(replicas: seq<Replica>, sent: set<Packet>, history: History)

  function Start(): System {
    System(seq(REPLICAS, _ => BLANK), {}, History(map[], map[], map[], map[], map[], map[]))
  }

  // ---------------------------------------------------------------------------------------------
  // Logs

  /** The term of the entry at a place counted from one; nothing comes before the first. */
  function TermAt(log: Log, at: nat): Option<nat> {
    if at == 0 then Some(0) else if at <= |log| then Some(log[at - 1].term) else None
  }

  function Last(log: Log): LogEnd {
    LogEnd(if log == [] then 0 else log[|log| - 1].term, |log|)
  }

  /** Whether a log that ends at `a` is no further behind than one that ends at `b`. */
  predicate NotBehind(a: LogEnd, b: LogEnd) {
    a.term > b.term || (a.term == b.term && a.index >= b.index)
  }

  /** `log` after copying entries onto the first `prev` of it: an entry that conflicts takes the place of
      what was there and everything after it. */
  function Take(log: Log, prev: nat, copied: Log): Log
    requires prev <= |log|
    decreases copied
  {
    if copied == [] then log
    else if prev < |log| && log[prev].term == copied[0].term then Take(log, prev + 1, copied[1..])
    else Take(log[..prev] + [copied[0]], prev + 1, copied[1..])
  }

  function Ops(log: Log): seq<Op> {
    seq(|log|, i requires 0 <= i < |log| => log[i].op)
  }

  function Min(a: nat, b: nat): nat { if a < b then a else b }

  function Max(a: nat, b: nat): nat { if a < b then b else a }

  /** How many replicas a leader knows to hold its first `at` entries. */
  function Holding(matched: seq<nat>, at: nat): nat {
    |set f | 0 <= f < |matched| && matched[f] >= at|
  }

  /** The furthest entry after `commit` that is of the leader's own term and held by a majority. */
  function Reached(r: Replica, at: nat): Option<nat>
    requires at <= |r.log|
  {
    if at <= r.commit then None
    else if TermAt(r.log, at) == Some(r.term) && Holding(r.matched, at) >= MAJORITY then Some(at)
    else Reached(r, at - 1)
  }

  // ---------------------------------------------------------------------------------------------
  // One replica acts

  function Set(y: System, i: nat, r: Replica): System
    requires i < |y.replicas|
  {
    y.(replicas := y.replicas[i := r])
  }

  function Sending(y: System, packets: set<Packet>): System {
    y.(sent := y.sent + packets)
  }

  function ToOthers(i: nat, message: Message): set<Packet> {
    set other | 0 <= other < REPLICAS && other != i :: Packet(i, other, message)
  }

  function CopyFor(r: Replica, follower: nat): Message {
    var next := if follower < |r.next| then Max(r.next[follower], 1) else 1;
    var prev := next - 1;
    var at := TermAt(r.log, prev);
    Append(r.term, prev, if at.Some? then at.value else 0, if prev <= |r.log| then r.log[prev..] else [], r.commit)
  }

  function CopyToEveryone(y: System, i: nat): System
    requires i < |y.replicas|
  {
    Sending(y, set other | 0 <= other < REPLICAS && other != i :: Packet(i, other, CopyFor(y.replicas[i], other)))
  }

  /** A later term than a replica has is one it takes up, as a follower. */
  function Adopt(y: System, i: nat, term: nat): System
    requires i < |y.replicas|
  {
    var r := y.replicas[i];
    var f := r.(term := term, votedFor := None, leader := None);
    Set(y, i, if r.role == Follower then f else f.(role := Follower, votes := {}))
  }

  /** What a timer running out does: a leader copies its log again, anyone else begins a pre-vote. */
  function OnTimer(y: System, i: nat): System
    requires i < |y.replicas|
  {
    var r := y.replicas[i];
    if r.role == Leader then CopyToEveryone(y, i)
    else Sending(Set(y, i, r.(leader := None, prevotes := {i})), ToOthers(i, PreVote(r.term + 1, Last(r.log))))
  }

  /** A replica stands in the next term, and votes for itself. */
  function Stand(y: System, i: nat): System
    requires i < |y.replicas|
  {
    var r := y.replicas[i];
    var term := r.term + 1;
    var h := y.history;
    var stood := Set(y, i, r.(term := term, role := Candidate, votedFor := Some(i), leader := None, votes := {i}));
    Sending(stood.(history := h.(voted := h.voted[(i, term) := i], stood := h.stood[(term, i) := r.log])),
            ToOthers(i, RequestVote(term, Last(r.log))))
  }

  function OnPreVote(y: System, i: nat, peer: nat, proposed: nat, end: LogEnd): System
    requires i < |y.replicas|
  {
    var r := y.replicas[i];
    var granted := proposed > r.term && NotBehind(end, Last(r.log)) && r.leader.None?;
    Sending(y, {Packet(i, peer, PreVoted(r.term, proposed, granted))})
  }

  function OnPreVoted(y: System, i: nat, peer: nat, proposed: nat, granted: bool): System
    requires i < |y.replicas|
  {
    var r := y.replicas[i];
    if i !in r.prevotes || proposed != r.term + 1 || !granted || peer >= REPLICAS then y
    else
      var prevotes := r.prevotes + {peer};
      if |prevotes| >= MAJORITY then Stand(Set(y, i, r.(prevotes := {})), i) else Set(y, i, r.(prevotes := prevotes))
  }

  /** A vote given: the first of the term to ask, so long as its log is not behind. */
  function Grant(y: System, i: nat, candidate: nat): System
    requires i < |y.replicas|
  {
    var r, h := y.replicas[i], y.history;
    Set(y, i, r.(votedFor := Some(candidate))).(history := h.(voted := h.voted[(i, r.term) := candidate]))
  }

  predicate Grants(r: Replica, candidate: nat, term: nat, end: LogEnd) {
    term == r.term && NotBehind(end, Last(r.log)) && (r.votedFor.None? || r.votedFor.value == candidate)
  }

  function OnRequestVote(y: System, i: nat, peer: nat, term: nat, end: LogEnd): System
    requires i < |y.replicas|
  {
    var r := y.replicas[i];
    if peer >= REPLICAS then y
    else
      var granted := Grants(r, peer, term, end);
      var voted := if granted && r.votedFor.None? then Grant(y, i, peer) else y;
      Sending(voted, {Packet(i, peer, Vote(r.term, granted))})
  }

  /** A candidate with a majority leads its term, and puts an entry of its own on its log. */
  function Lead(y: System, i: nat): System
    requires i < |y.replicas|
  {
    var r, h := y.replicas[i], y.history;
    var log := r.log + [Entry(r.term, Noop)];
    var led := r.(role := Leader, led := r.led + {r.term}, log := log, leader := Some(i), votes := {}, prevotes := {},
                  next := seq(REPLICAS, _ => |log|), matched := seq(REPLICAS, f => if f == i then |log| else 0));
    Set(y, i, led).(history := h.(logs := h.logs[r.term := log], leads := h.leads[r.term := i],
                                  electors := h.electors[r.term := r.votes], acked := h.acked[(i, r.term) := |log|]))
  }

  function OnVote(y: System, i: nat, peer: nat, term: nat, granted: bool): System
    requires i < |y.replicas|
  {
    var r := y.replicas[i];
    if r.role != Candidate || term != r.term || !granted || peer >= REPLICAS then y
    else
      var counted := Set(y, i, r.(votes := r.votes + {peer}));
      if |r.votes + {peer}| >= MAJORITY then CopyToEveryone(Lead(counted, i), i) else counted
  }

  /** A follower copies its leader's entries, and now agrees with it as far as the last of them. */
  function Accept(y: System, i: nat, prev: nat, copied: Log): System
    requires i < |y.replicas| && prev <= |y.replicas[i].log|
  {
    var r, h := y.replicas[i], y.history;
    var before := if (i, r.term) in h.acked then h.acked[(i, r.term)] else 0;
    Set(y, i, r.(log := Take(r.log, prev, copied)))
      .(history := h.(acked := h.acked[(i, r.term) := Max(before, prev + |copied|)]))
  }

  /** A replica commits, and applies what it has not applied yet. */
  function CommitTo(y: System, i: nat, reached: nat): (z: System)
    requires i < |y.replicas|
    ensures |z.replicas| == |y.replicas| && z.replicas[i].next == y.replicas[i].next
  {
    var r := y.replicas[i];
    var to := Min(reached, |r.log|);
    Set(y, i, r.(commit := reached, applied := r.applied + Ops(r.log[Min(|r.applied|, to)..to])))
  }

  function Heeds(r: Replica, leader: nat): Replica {
    var f := if r.role == Candidate then r.(role := Follower, votes := {}) else r;
    f.(leader := Some(leader), prevotes := {})
  }

  function OnAppend(y: System, i: nat, peer: nat, term: nat, prev: nat, prevTerm: nat, copied: Log, commit: nat): System
    requires i < |y.replicas|
  {
    var r := y.replicas[i];
    var refusal := {Packet(i, peer, Appended(r.term, None))};
    if peer >= REPLICAS then y
    else if term < r.term || r.role == Leader then Sending(y, refusal)
    else
      var heeding := Set(y, i, Heeds(r, peer));
      if TermAt(r.log, prev) != Some(prevTerm) then Sending(heeding, refusal)
      else
        var took := Accept(heeding, i, prev, copied);
        var last := prev + |copied|;
        var reached := Min(commit, last);
        var committed := if reached > r.commit then CommitTo(took, i, reached) else took;
        Sending(committed, {Packet(i, peer, Appended(term, Some(last)))})
  }

  function ToldReplica(r: Replica, follower: nat, matched: Option<nat>): Replica
    requires follower < |r.next| && follower < |r.matched|
  {
    match matched
    case None => r.(next := r.next[follower := if r.next[follower] > 1 then r.next[follower] - 1 else 1])
    case Some(reached) =>
      var held := Max(r.matched[follower], reached);
      r.(next := r.next[follower := held + 1], matched := r.matched[follower := held])
  }

  /** A leader hears how far a follower agrees with it. */
  function Told(y: System, i: nat, follower: nat, matched: Option<nat>): (z: System)
    requires i < |y.replicas| && follower < |y.replicas[i].next| && follower < |y.replicas[i].matched|
    ensures |z.replicas| == |y.replicas| && |z.replicas[i].next| == |y.replicas[i].next|
  {
    Set(y, i, ToldReplica(y.replicas[i], follower, matched))
  }

  function Advance(y: System, i: nat): (z: System)
    requires i < |y.replicas|
    ensures |z.replicas| == |y.replicas| && z.replicas[i].next == y.replicas[i].next
  {
    var r := y.replicas[i];
    match Reached(r, |r.log|)
    case None => y
    case Some(reached) => CommitTo(y, i, reached)
  }

  function OnAppended(y: System, i: nat, peer: nat, term: nat, matched: Option<nat>): System
    requires i < |y.replicas|
  {
    var r := y.replicas[i];
    if r.role != Leader || term != r.term || peer >= REPLICAS || peer >= |r.next| || peer >= |r.matched| then y
    else
      var told := Advance(Told(y, i, peer, matched), i);
      if matched.None? || told.replicas[i].next[peer] <= |told.replicas[i].log|
      then Sending(told, {Packet(i, peer, CopyFor(told.replicas[i], peer))})
      else told
  }

  predicate Has(log: Log, command: nat) {
    exists i :: 0 <= i < |log| && log[i].op == Command(command)
  }

  /** One more entry at the end of the leader's log and of the record of its term. */
  function Put(y: System, i: nat, command: nat): System
    requires i < |y.replicas|
  {
    var r, h := y.replicas[i], y.history;
    var log := r.log + [Entry(r.term, Command(command))];
    Set(y, i, r.(log := log, matched := if i < |r.matched| then r.matched[i := |log|] else r.matched))
      .(history := h.(logs := h.logs[r.term := log], acked := h.acked[(i, r.term) := |log|]))
  }

  function OnSubmit(y: System, i: nat, command: nat): System
    requires i < |y.replicas|
  {
    var r := y.replicas[i];
    if r.role != Leader || Has(r.log, command) then y else CopyToEveryone(Put(y, i, command), i)
  }

  function TermOf(m: Message): Option<nat> {
    match m
    case PreVoted(term, _, _) => Some(term)
    case RequestVote(term, _) => Some(term)
    case Vote(term, _) => Some(term)
    case Append(term, _, _, _, _) => Some(term)
    case Appended(term, _) => Some(term)
    case _ => None
  }

  /** A message handled, its receiver already in its term if that is later. */
  function Handle(y: System, i: nat, peer: nat, m: Message): System
    requires i < |y.replicas|
  {
    match m
    case PreVote(proposed, end) => OnPreVote(y, i, peer, proposed, end)
    case PreVoted(_, proposed, granted) => OnPreVoted(y, i, peer, proposed, granted)
    case RequestVote(term, end) => OnRequestVote(y, i, peer, term, end)
    case Vote(term, granted) => OnVote(y, i, peer, term, granted)
    case Append(term, prev, prevTerm, copied, commit) => OnAppend(y, i, peer, term, prev, prevTerm, copied, commit)
    case Appended(term, matched) => OnAppended(y, i, peer, term, matched)
    case Submit(command) => OnSubmit(y, i, command)
  }

  function OnMessage(y: System, i: nat, peer: nat, m: Message): System
    requires i < |y.replicas|
  {
    var term := TermOf(m);
    Handle(if term.Some? && term.value > y.replicas[i].term then Adopt(y, i, term.value) else y, i, peer, m)
  }

  // ---------------------------------------------------------------------------------------------
  // Runs

  datatype Step = Timer(i: nat) | Deliver(packet: Packet) | Client(i: nat, command: nat)

  predicate Enabled(y: System, step: Step) {
    match step
    case Timer(i) => i < |y.replicas|
    case Deliver(packet) => packet in y.sent && packet.dest < |y.replicas|
    case Client(i, _) => i < |y.replicas|
  }

  function Next(y: System, step: Step): System
    requires Enabled(y, step)
  {
    match step
    case Timer(i) => OnTimer(y, i)
    case Deliver(packet) => OnMessage(y, packet.dest, packet.sender, packet.message)
    case Client(i, command) => OnMessage(y, i, REPLICAS, Submit(command))
  }

  ghost predicate Runs(ys: seq<System>, steps: seq<Step>) {
    && |ys| == |steps| + 1 && ys[0] == Start()
    && forall k :: 0 <= k < |steps| ==> Enabled(ys[k], steps[k]) && ys[k + 1] == Next(ys[k], steps[k])
  }
}
