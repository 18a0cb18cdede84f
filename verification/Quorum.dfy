/** The quorum's rounds, with every delay and every dropped message given: a round closes with exactly the
    replicas whose question and answer both got through. */
module Quorum {
  import opened Wrappers

  function Millis(n: nat): nat {
    n * 1_000_000
  }

  const REPLICAS := 5
  const QUORUM := 3
  const ROUNDS := 5
  const PERIOD := Millis(5_000)
  const PATIENCE := Millis(2_000)
  const QUIET := Millis(30_000)
  const LEAST_THINKING := Millis(1)
  const MOST_THINKING := Millis(200)
  const LEAST_LATENCY := Millis(10)
  const MOST_LATENCY := Millis(100)

  /** A round opens on the period, whenever the last one finished. */
  function Opens(round: nat): nat {
    PERIOD * round
  }

  /** What becomes of one replica's part in one round: how long the question takes to reach it, how long
      it thinks, and how long its answer takes back. A message dropped takes no time at all. */
  datatype Trip = Trip(asked: Option<nat>, thinks: nat, answered: Option<nat>)

  type Wire = (nat, nat) -> Trip

  predicate Took(latency: Option<nat>) {
    latency.Some? ==> LEAST_LATENCY <= latency.value <= MOST_LATENCY
  }

  /** Delays within the constants, and any messages dropped. */
  ghost predicate Possible(wire: Wire) {
    forall round, replica ::
      var trip := wire(round, replica);
      Took(trip.asked) && Took(trip.answered) && LEAST_THINKING <= trip.thinks <= MOST_THINKING
  }

  // ---------------------------------------------------------------------------------------------
  // A replica

  /** An answer put on the wire: to which round, and when. */
  datatype Reply = Reply(round: nat, at: nat)

  /** What a replica would send back if it never gave up and was never kept waiting. */
  function Replies(wire: Wire, replica: nat, rounds: nat): seq<Reply> {
    if rounds == 0 then []
    else
      var trip := wire(rounds, replica);
      Replies(wire, replica, rounds - 1)
      + (if trip.asked.Some? then [Reply(rounds, Opens(rounds) + trip.asked.value + trip.thinks)] else [])
  }

  /** Answers whatever is asked, a question at a time, until the wire has been quiet too long. It answers
      every question that reaches it, the moment it has thought: no question finds it busy, and none
      finds it gone. */
  method Answer(wire: Wire, replica: nat) returns (replies: seq<Reply>)
    requires Possible(wire)
    ensures replies == Replies(wire, replica, ROUNDS)
  {
    replies := [];
    var free: nat, gone := 0, false;
    var round: nat := 1;
    while round <= ROUNDS
      invariant 1 <= round <= ROUNDS + 1 && !gone
      invariant free <= Opens(round - 1) + MOST_LATENCY + MOST_THINKING
      invariant replies == Replies(wire, replica, round - 1)
    {
      var trip := wire(round, replica);
      if trip.asked.Some? && !gone {
        var lands := Opens(round) + trip.asked.value;
        if lands > free + QUIET {
          gone := true;
        } else {
          var begins := if lands < free then free else lands;
          replies := replies + [Reply(round, begins + trip.thinks)];
          free := begins + trip.thinks;
        }
      }
      round := round + 1;
    }
  }

  // ---------------------------------------------------------------------------------------------
  // The coordinator

  /** An acknowledgement that lands at the coordinator. */
  datatype Ack = Ack(at: nat, sender: nat, round: nat)

  predicate Carried(wire: Wire, round: nat, replica: nat) {
    wire(round, replica).asked.Some? && wire(round, replica).answered.Some?
  }

  /** The acknowledgement of `round` from `replica`, when its question and its answer were both carried. */
  function AckOf(wire: Wire, round: nat, replica: nat): Ack
    requires Carried(wire, round, replica)
  {
    var trip := wire(round, replica);
    Ack(Opens(round) + trip.asked.value + trip.thinks + trip.answered.value, replica, round)
  }

  predicate IsAck(wire: Wire, ack: Ack) {
    1 <= ack.round <= ROUNDS && ack.sender < REPLICAS && Carried(wire, ack.round, ack.sender)
    && ack == AckOf(wire, ack.round, ack.sender)
  }

  /** A replica put this answer on the wire, and the wire brought it back. */
  ghost predicate Brought(wire: Wire, ack: Ack) {
    ack.sender < REPLICAS
    && exists reply :: reply in Replies(wire, ack.sender, ROUNDS)
         && wire(reply.round, ack.sender).answered.Some?
         && ack == Ack(reply.at + wire(reply.round, ack.sender).answered.value, ack.sender, reply.round)
  }

  /** What the wire brings back is an acknowledgement for each question and answer both carried. */
  lemma BroughtIsAck(wire: Wire, ack: Ack)
    ensures Brought(wire, ack) <==> IsAck(wire, ack)
  {
    if Brought(wire, ack) {
      var reply :| reply in Replies(wire, ack.sender, ROUNDS) && wire(reply.round, ack.sender).answered.Some?
        && ack == Ack(reply.at + wire(reply.round, ack.sender).answered.value, ack.sender, reply.round);
      AckIsReply(wire, ack.sender, ROUNDS, reply);
    }
    if IsAck(wire, ack) {
      var trip := wire(ack.round, ack.sender);
      AckIsReply(wire, ack.sender, ROUNDS, Reply(ack.round, Opens(ack.round) + trip.asked.value + trip.thinks));
    }
  }

  /** An acknowledgement is a replica's answer, once the wire has brought it back. */
  lemma {:induction false} AckIsReply(wire: Wire, replica: nat, rounds: nat, reply: Reply)
    ensures reply in Replies(wire, replica, rounds)
            <==> 1 <= reply.round <= rounds && wire(reply.round, replica).asked.Some?
                 && reply.at == Opens(reply.round) + wire(reply.round, replica).asked.value
                                + wire(reply.round, replica).thinks
    ensures reply in Replies(wire, replica, rounds) && Carried(wire, reply.round, replica) ==>
              AckOf(wire, reply.round, replica)
              == Ack(reply.at + wire(reply.round, replica).answered.value, replica, reply.round)
  {
    if rounds > 0 {
      AckIsReply(wire, replica, rounds - 1, reply);
    }
  }

  /** What lands at the coordinator over the run, in the order it lands: every answer a replica sent and
      the wire brought back, and nothing else, each once. Two that land together may come in either order. */
  ghost predicate Lands(wire: Wire, inbox: seq<Ack>) {
    && (forall i, j :: 0 <= i < j < |inbox| ==> inbox[i].at <= inbox[j].at && inbox[i] != inbox[j])
    && (forall ack: Ack :: ack in inbox <==> Brought(wire, ack))
  }

  lemma LandsIffAck(wire: Wire, inbox: seq<Ack>, ack: Ack)
    requires Lands(wire, inbox)
    ensures ack in inbox <==> IsAck(wire, ack)
  {
    BroughtIsAck(wire, ack);
  }

  /** What the coordinator writes down. */
  datatype Note = Heard(round: nat, replica: nat, at: nat) | Closed(round: nat, acks: nat, at: nat)

  /** The acknowledgements of one round, in the order they land. */
  function OfRound(inbox: seq<Ack>, round: nat): seq<Ack> {
    if inbox == [] then []
    else
      var n := |inbox| - 1;
      OfRound(inbox[..n], round) + (if inbox[n].round == round then [inbox[n]] else [])
  }

  /** What a round writes down: its acknowledgements as they land, and that it closed, with how many, when
      the last replica was heard or else when patience ran out. */
  function RoundNotes(round: nat, acks: seq<Ack>): (notes: seq<Note>)
    ensures |notes| == |acks| + 1
  {
    seq(|acks|, k requires 0 <= k < |acks| => Heard(round, acks[k].sender, acks[k].at))
    + [Closed(round, |acks|, if |acks| == REPLICAS then acks[REPLICAS - 1].at else Opens(round) + PATIENCE)]
  }

  /** What the coordinator has written down once so many rounds are over. */
  function AllNotes(inbox: seq<Ack>, rounds: nat): seq<Note> {
    if rounds == 0 then [] else AllNotes(inbox, rounds - 1) + RoundNotes(rounds, OfRound(inbox, rounds))
  }

  lemma {:induction false} SliceIsOfRound(inbox: seq<Ack>, round: nat, first: nat, taken: nat)
    requires first <= taken <= |inbox|
    requires forall k :: 0 <= k < first ==> inbox[k].round < round
    requires forall k :: first <= k < taken ==> inbox[k].round == round
    requires forall k :: taken <= k < |inbox| ==> inbox[k].round > round
    ensures OfRound(inbox, round) == inbox[first..taken]
  {
    if inbox != [] {
      var n := |inbox| - 1;
      var fewer := inbox[..n];
      if taken == |inbox| && first < taken {
        SliceIsOfRound(fewer, round, first, n);
        assert inbox[first..taken] == fewer[first..n] + [inbox[n]];
      } else {
        var a, b := if first <= n then first else n, if taken <= n then taken else n;
        SliceIsOfRound(fewer, round, a, b);
        assert inbox[first..taken] == fewer[a..b];
      }
    }
  }

  /** The replicas a round could have heard from. */
  function Reached(wire: Wire, round: nat): set<nat> {
    set replica | 0 <= replica < REPLICAS && Carried(wire, round, replica)
  }

  /** An acknowledgement lands inside its own round, long before it closes. */
  lemma LandsInRound(wire: Wire, ack: Ack)
    requires Possible(wire) && IsAck(wire, ack)
    ensures Opens(ack.round) < ack.at <= Opens(ack.round) + 2 * MOST_LATENCY + MOST_THINKING
    ensures ack.at < Opens(ack.round) + PATIENCE < Opens(ack.round + 1)
  {}

  /** The inbox is taken up to `i`: everything of the rounds before, and nothing of this one or after. */
  ghost predicate TakenTo(inbox: seq<Ack>, i: nat, round: nat) {
    && i <= |inbox|
    && (forall k :: 0 <= k < i ==> inbox[k].round < round)
    && (forall k :: i <= k < |inbox| ==> inbox[k].round >= round)
  }

  /** Who sent what was taken of the inbox from `first` up to `i`. */
  ghost function Senders(inbox: seq<Ack>, first: nat, i: nat): set<nat>
    requires i <= |inbox|
  {
    set k | first <= k < i :: inbox[k].sender
  }

  /** What was taken from `first` up to `i` is answers to `round`, no two from one replica. */
  ghost predicate HeardFrom(wire: Wire, inbox: seq<Ack>, first: nat, i: nat, round: nat) {
    && first <= i <= |inbox| && |Senders(inbox, first, i)| == i - first
    && (forall k :: first <= k < i ==> inbox[k].round == round)
    && Senders(inbox, first, i) <= Reached(wire, round)
  }

  /** Opens a round, and closes it once every replica has answered or patience runs out. What it counts
      is exactly the replicas that were reached, and not one answer to any other round comes in. */
  method Round(wire: Wire, inbox: seq<Ack>, round: nat, clock: nat, first: nat)
    returns (notes: seq<Note>, now: nat, taken: nat)
    requires Possible(wire) && Lands(wire, inbox) && 1 <= round <= ROUNDS
    requires clock <= Opens(round) && TakenTo(inbox, first, round)
    ensures TakenTo(inbox, taken, round + 1)
    ensures Opens(round) <= now <= Opens(round) + PATIENCE
    ensures notes == RoundNotes(round, OfRound(inbox, round))
    ensures |notes| > 0 && notes[|notes| - 1] == Closed(round, |Reached(wire, round)|, now)
    ensures |notes| == |Reached(wire, round)| + 1
    ensures taken == first + |notes| - 1
    ensures forall k :: first <= k < taken ==> notes[k - first] == Heard(round, inbox[k].sender, inbox[k].at)
    ensures forall k :: 0 <= k < |notes| - 1 ==> notes[k].Heard? && notes[k].round == round
  {
    hide Lands, Possible, HeardFrom, TakenTo, Reached, OfRound, RoundNotes;
    NoneHeard(wire, inbox, first, round);
    now := if clock < Opens(round) then Opens(round) else clock;
    var deadline := Opens(round) + PATIENCE;
    var acks := 0;
    taken, notes := first, [];
    while acks < REPLICAS
      invariant Opens(round) <= now <= deadline && acks == taken - first == |notes| <= REPLICAS
      invariant first <= taken <= |inbox|
      invariant HeardFrom(wire, inbox, first, taken, round)
      invariant forall k :: first <= k < taken ==> notes[k - first] == Heard(round, inbox[k].sender, inbox[k].at)
      invariant forall k :: 0 <= k < |notes| ==> notes[k].Heard? && notes[k].round == round
      invariant taken > first ==> now == inbox[taken - 1].at
      invariant taken == first ==> now == Opens(round)
      decreases |inbox| - taken
    {
      HeardInside(wire, inbox, first, taken, round);
      if taken == |inbox| || inbox[taken].at > deadline {
        now := deadline;
        break;
      }
      NextIsOfRound(wire, inbox, round, first, taken);
      NextIsNew(wire, inbox, round, first, taken);
      if now < inbox[taken].at {
        now := inbox[taken].at;
      }
      taken := taken + 1;
      if inbox[taken - 1].round != round {
        assert false;
        continue;
      }
      acks := acks + 1;
      notes := notes + [Heard(round, inbox[taken - 1].sender, now)];
    }
    AllHeard(wire, inbox, round, first, taken);
    HeardIsOfRound(wire, inbox, round, first, taken);
    notes := notes + [Closed(round, acks, now)];
    SameNotes(round, inbox[first..taken], notes, now);
  }

  lemma SameNotes(round: nat, acks: seq<Ack>, notes: seq<Note>, now: nat)
    requires |notes| == |acks| + 1 && notes[|acks|] == Closed(round, |acks|, now)
    requires forall k :: 0 <= k < |acks| ==> notes[k] == Heard(round, acks[k].sender, acks[k].at)
    requires now == if |acks| == REPLICAS then acks[REPLICAS - 1].at else Opens(round) + PATIENCE
    ensures notes == RoundNotes(round, acks)
  {}

  /** What was taken is the round's own, once nothing of it is left to come. */
  lemma HeardIsOfRound(wire: Wire, inbox: seq<Ack>, round: nat, first: nat, taken: nat)
    requires TakenTo(inbox, first, round) && TakenTo(inbox, taken, round + 1)
    requires HeardFrom(wire, inbox, first, taken, round)
    ensures OfRound(inbox, round) == inbox[first..taken]
  {
    SliceIsOfRound(inbox, round, first, taken);
  }

  lemma NoneHeard(wire: Wire, inbox: seq<Ack>, first: nat, round: nat)
    requires TakenTo(inbox, first, round)
    ensures HeardFrom(wire, inbox, first, first, round) && first <= |inbox|
  {}

  lemma HeardInside(wire: Wire, inbox: seq<Ack>, first: nat, i: nat, round: nat)
    requires HeardFrom(wire, inbox, first, i, round)
    ensures first <= i <= |inbox|
  {}

  /** The next to land before a round's deadline is an answer to that round. */
  lemma NextIsOfRound(wire: Wire, inbox: seq<Ack>, round: nat, first: nat, i: nat)
    requires Possible(wire) && Lands(wire, inbox) && TakenTo(inbox, first, round)
    requires first <= i < |inbox| && inbox[i].at <= Opens(round) + PATIENCE
    ensures inbox[i].round == round && inbox[i].sender in Reached(wire, round) && inbox[i].at > Opens(round)
    ensures i > first ==> inbox[i - 1].at <= inbox[i].at
  {
    hide Brought;
    LandsIffAck(wire, inbox, inbox[i]);
    LandsInRound(wire, inbox[i]);
    assert inbox[i].round >= round;
  }

  /** No replica acknowledges a round twice. */
  lemma SendersDiffer(wire: Wire, inbox: seq<Ack>, k: nat, i: nat)
    requires Lands(wire, inbox) && k < i < |inbox| && inbox[k].round == inbox[i].round
    ensures inbox[k].sender != inbox[i].sender
  {
    LandsIffAck(wire, inbox, inbox[k]);
    LandsIffAck(wire, inbox, inbox[i]);
  }

  /** And from a replica this round has not heard from. */
  lemma NextIsNew(wire: Wire, inbox: seq<Ack>, round: nat, first: nat, i: nat)
    requires Lands(wire, inbox) && i < |inbox| && HeardFrom(wire, inbox, first, i, round)
    requires inbox[i].round == round && inbox[i].sender in Reached(wire, round)
    ensures HeardFrom(wire, inbox, first, i + 1, round)
  {
    OneMoreSender(inbox, first, i);
    NotHeardYet(wire, inbox, round, first, i);
    hide Lands, Reached;
  }

  lemma NotHeardYet(wire: Wire, inbox: seq<Ack>, round: nat, first: nat, i: nat)
    requires Lands(wire, inbox) && i < |inbox| && HeardFrom(wire, inbox, first, i, round)
    requires inbox[i].round == round
    ensures inbox[i].sender !in Senders(inbox, first, i)
  {
    forall k | first <= k < i ensures inbox[k].sender != inbox[i].sender {
      SendersDiffer(wire, inbox, k, i);
    }
  }

  lemma OneMoreSender(inbox: seq<Ack>, first: nat, i: nat)
    requires first <= i < |inbox|
    ensures Senders(inbox, first, i + 1) == Senders(inbox, first, i) + {inbox[i].sender}
  {}

  lemma AllReplicas(some: set<nat>)
    requires forall replica :: replica in some ==> replica < REPLICAS
    ensures |some| <= REPLICAS
    ensures |some| == REPLICAS ==> forall replica :: 0 <= replica < REPLICAS ==> replica in some
  {
    var all := {0, 1, 2, 3, 4};
    assert |all| == 5 && some <= all;
    SubsetSize(some, all);
  }

  lemma {:induction false} SubsetSize(some: set<nat>, all: set<nat>)
    requires some <= all
    ensures |some| <= |all|
    ensures |some| == |all| ==> some == all
  {
    if some != {} {
      var x :| x in some;
      SubsetSize(some - {x}, all - {x});
      assert some == some - {x} + {x} && all == all - {x} + {x};
    }
  }

  /** Once the round closes, nothing of it is left to come. */
  lemma AllHeard(wire: Wire, inbox: seq<Ack>, round: nat, first: nat, i: nat)
    requires Possible(wire) && Lands(wire, inbox) && 1 <= round <= ROUNDS
    requires TakenTo(inbox, first, round) && HeardFrom(wire, inbox, first, i, round)
    requires i - first >= REPLICAS || i == |inbox| || inbox[i].at > Opens(round) + PATIENCE
    ensures TakenTo(inbox, i, round + 1) && i - first == |Reached(wire, round)|
  {
    var heard := Senders(inbox, first, i);
    AllReplicas(heard);
    forall k | i <= k < |inbox| ensures inbox[k].round >= round + 1 {
      NotOfRound(wire, inbox, round, first, i, k);
    }
    forall replica | replica in Reached(wire, round) ensures replica in heard {
      var ack := AckOf(wire, round, replica);
      assert IsAck(wire, ack);
      LandsIffAck(wire, inbox, ack);
      var k :| 0 <= k < |inbox| && inbox[k] == ack;
      assert first <= k < i;
    }
    assert heard == Reached(wire, round);
  }

  lemma NotOfRound(wire: Wire, inbox: seq<Ack>, round: nat, first: nat, i: nat, k: nat)
    requires Possible(wire) && Lands(wire, inbox) && HeardFrom(wire, inbox, first, i, round)
    requires i - first >= REPLICAS || i == |inbox| || inbox[i].at > Opens(round) + PATIENCE
    requires i <= k < |inbox|
    ensures inbox[k].round != round
  {
    LandsIffAck(wire, inbox, inbox[k]);
    LandsInRound(wire, inbox[k]);
    if i - first >= REPLICAS {
      AllReplicas(Senders(inbox, first, i));
      assert inbox[k].sender in Senders(inbox, first, i);
      var j :| first <= j < i && inbox[j].sender == inbox[k].sender;
      if inbox[k].round == round {
        SendersDiffer(wire, inbox, j, k);
      }
    } else {
      assert i == k || inbox[i].at <= inbox[k].at;
    }
  }

  /** Where each round closed in what was written, and with how many. */
  ghost predicate Closes(wire: Wire, notes: seq<Note>, closings: seq<nat>) {
    && (forall n :: 0 <= n < |closings| ==>
          && closings[n] < |notes| && notes[closings[n]].Closed? && notes[closings[n]].round == n + 1
          && notes[closings[n]].acks == |Reached(wire, n + 1)|)
    && (forall n, m :: 0 <= n < m < |closings| ==> closings[n] < closings[m])
    && (forall i :: 0 <= i < |notes| && notes[i].Closed? ==> i in closings)
  }

  /** Every round in turn. */
  method Ask(wire: Wire, inbox: seq<Ack>) returns (notes: seq<Note>, ghost closings: seq<nat>)
    requires Possible(wire) && Lands(wire, inbox)
    ensures notes == AllNotes(inbox, ROUNDS)
    ensures |closings| == ROUNDS && Closes(wire, notes, closings)
    ensures forall k :: 0 <= k < |notes| ==> 1 <= notes[k].round <= ROUNDS
  {
    hide Lands, Possible, TakenTo, Reached, Closes, RoundNotes, OfRound;
    NothingTaken(wire, inbox);
    notes, closings := [], [];
    var clock: nat, taken: nat := 0, 0;
    var round := 1;
    while round <= ROUNDS
      invariant 1 <= round <= ROUNDS + 1 && |closings| == round - 1
      invariant clock <= Opens(round) && TakenTo(inbox, taken, round)
      invariant notes == AllNotes(inbox, round - 1)
      invariant Closes(wire, notes, closings)
      invariant forall k :: 0 <= k < |notes| ==> 1 <= notes[k].round <= ROUNDS
    {
      var more, now, upTo := Round(wire, inbox, round, clock, taken);
      ClosesMore(wire, notes, closings, more);
      closings := closings + [|notes| + |more| - 1];
      notes := notes + more;
      clock, taken := now, upTo;
      round := round + 1;
    }
  }

  lemma NothingTaken(wire: Wire, inbox: seq<Ack>)
    requires Lands(wire, inbox)
    ensures TakenTo(inbox, 0, 1) && Closes(wire, [], [])
  {
    forall k | 0 <= k < |inbox| ensures inbox[k].round >= 1 {
      LandsIffAck(wire, inbox, inbox[k]);
    }
  }

  lemma ClosesMore(wire: Wire, notes: seq<Note>, closings: seq<nat>, more: seq<Note>)
    requires Closes(wire, notes, closings) && |more| > 0
    requires var last := more[|more| - 1];
             last.Closed? && last.round == |closings| + 1 && last.acks == |Reached(wire, |closings| + 1)|
    requires forall k :: 0 <= k < |more| - 1 ==> more[k].Heard?
    ensures Closes(wire, notes + more, closings + [|notes| + |more| - 1])
  {
    var longer := closings + [|notes| + |more| - 1];
    forall i | 0 <= i < |notes + more| && (notes + more)[i].Closed? ensures i in longer {
      if i < |notes| {
        assert notes[i].Closed? && i in closings;
      } else {
        assert i - |notes| == |more| - 1;
        assert longer[|closings|] == i;
      }
    }
  }

  /** Any two quorums share a replica, and with one replica fewer two need not: a quorum is as small as it can be. */
  lemma QuorumsMeet(a: set<nat>, b: set<nat>)
    requires |a| >= QUORUM && |b| >= QUORUM
    requires (forall r :: r in a ==> r < REPLICAS) && forall r :: r in b ==> r < REPLICAS
    ensures a * b != {}
    ensures exists c: set<nat>, d: set<nat> :: |c| == |d| == QUORUM - 1 && c * d == {} && c + d <= {0, 1, 2, 3, 4}
  {
    if a * b == {} {
      assert |a + b| == |a| + |b|;
      AllReplicas(a + b);
      assert false;
    }
    var c: set<nat>, d: set<nat> := {0, 1}, {2, 3};
    assert |c| == |d| == QUORUM - 1 && c * d == {} && c + d <= {0, 1, 2, 3, 4};
  }
}
