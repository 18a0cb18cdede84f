/** The clients of the replicated log: what they ask, what the replicas answer, and what the run writes down
    of them all at each step.

    A client asks again whenever it likes and of whichever replica it likes, and time moves on as it likes
    between any two steps; an answer takes at least as long as the wire takes. */
module ReplogClients {
  import opened Replog
  import opened ReplogSafety
  import opened Wrappers

  const CLIENTS := 3
  const ROUNDS := 5
  const PERIOD: nat := 2_000_000_000
  const LEAST_LATENCY: nat := 10_000_000

  // ---------------------------------------------------------------------------------------------
  // What a run writes down

  /** What is written of a replica. */
  datatype Recorded = Recorded(
    term: nat, role: Role, votedFor: Option<nat>, commit: nat, log: Log, applied: seq<Op>, led: set<nat>)

  function Rec(r: Replica): Recorded {
    Recorded(r.term, r.role, r.votedFor, r.commit, r.log, r.applied, r.led)
  }

  /** When a command was first sent, and when its client heard it was done. */
  datatype Submission = Submission(sent: nat, done: Option<nat>)

  type Asked = map<nat, map<nat, Submission>>

  /** What a step knows: of the replicas, those that have begun, and of the clients, what they have asked. */
  datatype View = View(replicas: map<nat, Recorded>, clients: Asked)

  /** The systems a replica notes in handling a message, in the order it notes them: its log may move
      before its commit does. `z` is what the handling comes to. */
  function Within(y: System, i: nat, peer: nat, m: Message, z: System): (noted: seq<System>)
    requires i < |y.replicas| == |z.replicas|
    ensures forall k :: 0 <= k < |noted| ==> |noted[k].replicas| == |y.replicas|
  {
    var r, q := y.replicas[i], z.replicas[i];
    match m
    case PreVote(_, _) => []
    case PreVoted(_, _, _) => if q.term != r.term then [z] else []
    case RequestVote(_, _) => if q.votedFor != r.votedFor then [z] else []
    case Vote(_, _) => if q.role != r.role then [z] else []
    case Append(term, prev, prevTerm, copied, _) =>
      (if Takes(r, peer, term, prev, prevTerm) && Take(r.log, prev, copied) != r.log then [Took(y, i, peer, prev, copied)] else [])
      + (if q.commit > r.commit then [z] else [])
    case Appended(_, _) => if q.commit > r.commit then [z] else []
    case Submit(_) => if q.log != r.log then [z] else []
  }

  /** Whether a replica takes what a leader copied to it. */
  predicate Takes(r: Replica, peer: nat, term: nat, prev: nat, prevTerm: nat) {
    peer < REPLICAS && term >= r.term && r.role != Leader && TermAt(r.log, prev) == Some(prevTerm)
  }

  /** A follower with its leader's entries in its log, and nothing more committed yet. */
  function Took(y: System, i: nat, peer: nat, prev: nat, copied: Log): (took: System)
    requires i < |y.replicas| && prev <= |y.replicas[i].log|
    ensures |took.replicas| == |y.replicas|
  {
    Accept(Set(y, i, Heeds(y.replicas[i], peer)), i, prev, copied)
  }

  /** A replica already in the term of a message it is to handle. */
  function InTermOf(y: System, i: nat, m: Message): (z: System)
    requires i < |y.replicas|
    ensures |z.replicas| == |y.replicas|
  {
    var term := TermOf(m);
    if term.Some? && term.value > y.replicas[i].term then Adopt(y, i, term.value) else y
  }

  /** Every system noted while a message is handled: a change nothing within noted is noted at the end. */
  function Moments(y: System, i: nat, peer: nat, m: Message): (noted: seq<System>)
    requires i < |y.replicas|
    ensures forall k :: 0 <= k < |noted| ==> |noted[k].replicas| == |y.replicas|
  {
    var adopted := InTermOf(y, i, m);
    HandleKeeps(adopted, i, peer, m);
    var z := Handle(adopted, i, peer, m);
    var within := Within(adopted, i, peer, m, z);
    var r, q := y.replicas[i], z.replicas[i];
    if within == [] && (q.term, q.role, q.votedFor) != (r.term, r.role, r.votedFor) then [z] else within
  }

  function Actor(step: Step): nat {
    match step
    case Timer(i) => i
    case Deliver(p) => p.dest
    case Client(i, _) => i
  }

  /** What a step brings to a replica, and from whom. */
  function Brought(step: Step): (nat, Message)
    requires !step.Timer?
  {
    match step
    case Deliver(p) => (p.sender, p.message)
    case Client(_, command) => (REPLICAS, Submit(command))
  }

  /** Every system noted in a step of one replica. A timer running out is noted unless it is a leader's. */
  function Noted(y: System, step: Step): (noted: seq<System>)
    requires Enabled(y, step)
    ensures forall k :: 0 <= k < |noted| ==> |noted[k].replicas| == |y.replicas|
  {
    if step.Timer? then if y.replicas[step.i].role == Leader then [] else [OnTimer(y, step.i)]
    else Moments(y, Actor(step), Brought(step).0, Brought(step).1)
  }

  /** What is written down as a replica takes a step. */
  function Views(view: View, y: System, step: Step): (views: seq<View>)
    requires Enabled(y, step)
    ensures |views| == |Noted(y, step)|
  {
    var noted, i := Noted(y, step), Actor(step);
    seq(|noted|, k requires 0 <= k < |noted| && i < |noted[k].replicas| =>
      view.(replicas := view.replicas[i := Rec(noted[k].replicas[i])]))
  }

  // ---------------------------------------------------------------------------------------------
  // What replicas owe clients

  datatype Answer = Done | NotLeader(hint: Option<nat>)

  /** An answer on its way to a client, and when it set out. */
  datatype Submitted = Submitted(client: nat, command: nat, answer: Answer, at: nat)

  /** A client's request on its way to a replica. */
  datatype Asking = Asking(client: nat, dest: nat, command: nat)

  /** Whom a leader will answer once an entry is committed, and about which command. */
  type Pending = map<nat, (nat, nat)>

  function OpAt(log: Log, at: nat): Option<Op> {
    if 1 <= at <= |log| then Some(log[at - 1].op) else None
  }

  /** The first place a log holds a command. */
  function HeldAt(log: Log, command: nat): (at: Option<nat>)
    ensures at.Some? ==> OpAt(log, at.value) == Some(Command(command))
    ensures at.None? ==> !Has(log, command)
  {
    if log == [] then None
    else
      var n := |log| - 1;
      var earlier := HeldAt(log[..n], command);
      if earlier.Some? then earlier else if log[n].op == Command(command) then Some(n + 1) else None
  }

  /** What a leader that has just committed tells the clients it owes. */
  function Owed(r: Replica, pending: Pending, now: nat): set<Submitted> {
    set at | at in pending && at <= r.commit && OpAt(r.log, at) == Some(Command(pending[at].1)) ::
      Submitted(pending[at].0, pending[at].1, Done, now)
  }

  function StillOwed(r: Replica, pending: Pending): Pending {
    map at | at in pending && at > r.commit :: pending[at]
  }

  /** Whom a replica still owes once it is in the term of a message: nobody, if it led or stood before. */
  function OwedInTerm(r: Replica, m: Message, pending: Pending): Pending {
    if TermOf(m).Some? && TermOf(m).value > r.term && r.role != Follower then map[] else pending
  }

  /** What a replica tells clients in taking a step, and whom it owes after. */
  function Answering(y: System, step: Step, pending: Pending, now: nat): (told: (set<Submitted>, Pending))
    requires Enabled(y, step)
  {
    if !step.Deliver? then ({}, pending)
    else
      var i, m := step.packet.dest, step.packet.message;
      var owed := OwedInTerm(y.replicas[i], m, pending);
      StepKeeps(y, step);
      var q := Next(y, step).replicas[i];
      if m.Appended? && q.commit > y.replicas[i].commit then (Owed(q, owed, now), StillOwed(q, owed))
      else ({}, owed)
  }

  /** What a replica does about a client's command: answers it, or owes it an answer. */
  function Takings(r: Replica, ask: Asking, pending: Pending, now: nat): (told: (set<Submitted>, Pending)) {
    if r.role != Leader then ({Submitted(ask.client, ask.command, NotLeader(r.leader), now)}, pending)
    else
      match HeldAt(r.log, ask.command)
      case Some(at) =>
        if at <= r.commit then ({Submitted(ask.client, ask.command, Done, now)}, pending)
        else ({}, pending[at := (ask.client, ask.command)])
      case None => ({}, pending[|r.log| + 1 := (ask.client, ask.command)])
  }

  // ---------------------------------------------------------------------------------------------
  // Runs

  /** A client: which round it is in, and whether it is still waiting for that round's command. */
  datatype Asker = Asker(round: nat, waiting: bool)

  /** The command a client sends in a round. */
  function Numbered(round: nat, client: nat): nat
    requires round > 0
  {
    CLIENTS * (round - 1) + client + 1
  }

  datatype Whole = Whole(
    y: System, pending: seq<Pending>, asks: set<Asking>, answers: set<Submitted>, askers: seq<Asker>, view: View, now: nat)

  function Opening(): Whole {
    Whole(Start(), seq(REPLICAS, _ => map[]), {}, {}, seq(CLIENTS, _ => Asker(0, false)), View(map[], map[]), 0)
  }

  datatype Act =
    | Passes(time: nat)
    | Begins(replica: nat)
    | Moves(step: Step)
    | Reaches(ask: Asking)
    | Sends(client: nat)
    | Asks(client: nat, dest: nat)
    | Hears(answer: Submitted)

  predicate Possible(w: Whole, act: Act) {
    && |w.pending| == |w.y.replicas|
    && match act
       case Passes(_) => true
       case Begins(i) => i < |w.y.replicas| && i !in w.view.replicas
       case Moves(step) => !step.Client? && Enabled(w.y, step) && Actor(step) in w.view.replicas
       case Reaches(ask) => ask in w.asks && ask.dest < |w.y.replicas| && ask.dest in w.view.replicas
       case Sends(c) =>
         c < |w.askers| && !w.askers[c].waiting && w.askers[c].round < ROUNDS && w.now >= PERIOD * (w.askers[c].round + 1)
       case Asks(c, dest) => c < |w.askers| && w.askers[c].waiting && w.askers[c].round > 0 && dest < REPLICAS
       case Hears(a) =>
         && a in w.answers && a.answer == Done && a.at + LEAST_LATENCY <= w.now
         && a.client < |w.askers| && w.askers[a.client].waiting && w.askers[a.client].round > 0
         && a.command == Numbered(w.askers[a.client].round, a.client)
  }

  /** A client's record of one more command sent, or one heard to be done. */
  function SentNow(clients: Asked, c: nat, command: nat, now: nat): Asked {
    clients[c := (if c in clients then clients[c] else map[])[command := Submission(now, None)]]
  }

  function DoneNow(clients: Asked, c: nat, command: nat, now: nat): Asked {
    if c in clients && command in clients[c]
    then clients[c := clients[c][command := clients[c][command].(done := Some(now))]]
    else clients
  }

  /** What an act writes down: a view for each change, in order. */
  function Writes(w: Whole, act: Act): seq<View>
    requires Possible(w, act)
  {
    match act
    case Passes(_) => []
    case Begins(i) => [w.view.(replicas := w.view.replicas[i := Rec(w.y.replicas[i])])]
    case Moves(step) => Views(w.view, w.y, step)
    case Reaches(ask) => Views(w.view, w.y, Client(ask.dest, ask.command))
    case Sends(c) => [w.view.(clients := SentNow(w.view.clients, c, Numbered(w.askers[c].round + 1, c), w.now))]
    case Asks(_, _) => []
    case Hears(a) => [w.view.(clients := DoneNow(w.view.clients, a.client, a.command, w.now))]
  }

  function Latest(view: View, written: seq<View>): View {
    if written == [] then view else written[|written| - 1]
  }

  function After(w: Whole, act: Act): Whole
    requires Possible(w, act)
  {
    var v := w.(view := Latest(w.view, Writes(w, act)));
    match act
    case Passes(time) => v.(now := w.now + time)
    case Begins(_) => v
    case Moves(step) =>
      var told := Answering(w.y, step, w.pending[Actor(step)], w.now);
      v.(y := Next(w.y, step), answers := w.answers + told.0, pending := w.pending[Actor(step) := told.1])
    case Reaches(ask) =>
      var told := Takings(w.y.replicas[ask.dest], ask, w.pending[ask.dest], w.now);
      v.(y := Next(w.y, Client(ask.dest, ask.command)), answers := w.answers + told.0,
         pending := w.pending[ask.dest := told.1])
    case Sends(c) => v.(askers := w.askers[c := Asker(w.askers[c].round + 1, true)])
    case Asks(c, dest) => v.(asks := w.asks + {Asking(c, dest, Numbered(w.askers[c].round, c))})
    case Hears(a) => v.(askers := w.askers[a.client := w.askers[a.client].(waiting := false)])
  }

  ghost predicate RunsOn(ws: seq<Whole>, acts: seq<Act>) {
    && |ws| == |acts| + 1 && ws[0] == Opening()
    && forall k :: 0 <= k < |acts| ==> Possible(ws[k], acts[k]) && ws[k + 1] == After(ws[k], acts[k])
  }
}
