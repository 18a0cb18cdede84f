/** The verdict on a quorum run, read off the worlds it recorded: the first round that closed short, at the
    step it closed. */
module QuorumVerdict {
  import opened Bytes
  import opened Check
  import opened Clock
  import opened Monitor
  import opened Quorum
  import opened Tree
  import opened World
  import opened Wrappers

  const COORDINATOR := "coordinator"
  const ROUND := "round"
  const ACKS := "acks"
  const REACHED := "quorum"
  const AT := "at"

  function Digit(n: nat): char {
    if n < 10 then "0123456789"[n] else '?'
  }

  function ReplicaName(replica: nat): string {
    "replica-" + [Digit(replica)]
  }

  /** A count as a world holds one. */
  function Counted(n: nat): u64 {
    if n <= END_OF_TIME then n else END_OF_TIME
  }

  /** A world with one more note written down. */
  function Written(w: World, note: Note): World {
    match note
    case Heard(round, replica, at) =>
      w[ReplicaName(replica) := map[ROUND := Count(Counted(round)), AT := Instant(Counted(at))]]
    case Closed(round, acks, at) =>
      w[COORDINATOR := map[ROUND := Count(Counted(round)), ACKS := Count(Counted(acks)), REACHED := Flag(acks >= QUORUM)]]
  }

  /** What the world holds once `notes` have been written down, each on top of what was known before. */
  function Book(notes: seq<Note>): World {
    if notes == [] then map[]
    else
      var n := |notes| - 1;
      Written(Book(notes[..n]), notes[n])
  }

  /** Whether a record leaves round `n` standing: it is of some other round, or of one that reached a
      quorum. */
  predicate Stands(n: nat, w: World) {
    COORDINATOR in w ==>
      || !(ROUND in w[COORDINATOR] && w[COORDINATOR][ROUND] == Count(Counted(n)))
      || !(REACHED in w[COORDINATOR] && w[COORDINATOR][REACHED] == Flag(false))
  }

  function NameOf(n: nat): string {
    "round " + [Digit(n)] + " lost quorum"
  }

  function Promise(n: nat): Invariant {
    Invariant(NameOf(n), Safety, w => Stands(n, w))
  }

  function Promises(): (all: seq<Invariant>)
    ensures |all| == ROUNDS
  {
    seq(ROUNDS, i requires 0 <= i => Promise(i + 1))
  }

  function NotedAt(note: Note): u64 {
    Counted(note.at)
  }

  /** The run as a check sees it: each note's instant, and the world as it stood once it was made. */
  function SeenOf(notes: seq<Note>): (seen: Seen)
    ensures |seen| == |notes|
  {
    seq(|notes|, k requires 0 <= k < |notes| => (NotedAt(notes[k]), Book(notes[..k + 1])))
  }

  // ---------------------------------------------------------------------------------------------

  /** The last round to have closed among these notes. */
  function LastClosed(notes: seq<Note>): (last: Option<Note>)
    ensures last.Some? ==> last.value.Closed?
  {
    if notes == [] then None
    else
      var n := |notes| - 1;
      if notes[n].Closed? then Some(notes[n]) else LastClosed(notes[..n])
  }

  lemma {:induction false} BookSays(notes: seq<Note>)
    ensures match LastClosed(notes)
            case None => COORDINATOR !in Book(notes)
            case Some(note) =>
              && note.Closed? && COORDINATOR in Book(notes)
              && Book(notes)[COORDINATOR] == map[ROUND := Count(Counted(note.round)), ACKS := Count(Counted(note.acks)),
                                                 REACHED := Flag(note.acks >= QUORUM)]
  {
    if notes != [] {
      var n := |notes| - 1;
      BookSays(notes[..n]);
      if notes[n].Heard? {
        assert ReplicaName(notes[n].replica)[0] == 'r' && COORDINATOR[0] == 'c';
      }
    }
  }

  /** Replicas and promises go by names that spell their numbers, so no two of them share one. */
  lemma NamesTell(n: nat)
    requires n < 10
    ensures |ReplicaName(n)| == 9 && ReplicaName(n)[..8] == "replica-" && ReplicaName(n)[8] as int == '0' as int + n
    ensures |NameOf(n)| == 19 && NameOf(n)[..6] == "round " && NameOf(n)[6] as int == '0' as int + n
            && NameOf(n)[7..] == " lost quorum"
  {}

  /** Replica `i` is heard from in the `k`th note, and in none after it. */
  predicate LastHeard(notes: seq<Note>, k: nat, replica: nat) {
    && k < |notes| && notes[k].Heard? && notes[k].replica == replica
    && forall j :: k < j < |notes| ==> !(notes[j].Heard? && notes[j].replica == replica)
  }

  /** A world holds of each replica what it last acknowledged and when, and nothing of one never heard from. */
  lemma {:induction false} BookHolds(notes: seq<Note>, replica: nat, k: nat)
    requires replica < REPLICAS && forall j :: 0 <= j < |notes| && notes[j].Heard? ==> notes[j].replica < REPLICAS
    ensures ReplicaName(replica) in Book(notes)
            <==> exists j :: 0 <= j < |notes| && notes[j].Heard? && notes[j].replica == replica
    ensures LastHeard(notes, k, replica) ==>
              Book(notes)[ReplicaName(replica)]
              == map["round" := Count(Counted(notes[k].round)), "at" := Instant(Counted(notes[k].at))]
  {
    if notes != [] {
      var n := |notes| - 1;
      var before, note := notes[..n], notes[n];
      BookHolds(before, replica, k);
      NamesTell(replica);
      if note.Heard? { NamesTell(note.replica); }
      assert ReplicaName(replica)[0] != COORDINATOR[0];
      assert forall j :: 0 <= j < n ==> notes[j] == before[j];
      if note.Heard? && note.replica == replica {
        assert LastHeard(notes, k, replica) ==> k == n;
      } else if LastHeard(notes, k, replica) {
        assert LastHeard(before, k, replica);
      }
    }
  }

  /** Counts are recorded as they are, up to the most that can be. */
  lemma CountedIs(n: nat)
    ensures n <= END_OF_TIME ==> Counted(n) == n
    ensures n > END_OF_TIME ==> Counted(n) == END_OF_TIME
  {}

  /** Round `n` stands broken in the world exactly while it is the last to have closed, and closed short. */
  lemma StandsUnless(notes: seq<Note>, n: nat)
    requires n <= ROUNDS && forall k :: 0 <= k < |notes| ==> notes[k].round <= ROUNDS
    ensures !Stands(n, Book(notes))
            <==> LastClosed(notes).Some? && LastClosed(notes).value.round == n && LastClosed(notes).value.acks < QUORUM
  {
    BookSays(notes);
    LastIsOne(notes);
    hide Book, LastClosed;
    if LastClosed(notes).Some? {
      var note := LastClosed(notes).value;
      assert note in notes;
      RecordStands(n, note.round, note.acks, Book(notes));
    }
  }

  lemma RecordStands(n: nat, round: nat, acks: nat, w: World)
    requires n <= ROUNDS && round <= ROUNDS && COORDINATOR in w
    requires w[COORDINATOR] == map[ROUND := Count(Counted(round)), ACKS := Count(Counted(acks)),
                                   REACHED := Flag(acks >= QUORUM)]
    ensures !Stands(n, w) <==> round == n && acks < QUORUM
  {}

  lemma {:induction false} LastIsOne(notes: seq<Note>)
    ensures LastClosed(notes).Some? ==>
              exists k :: 0 <= k < |notes| && notes[k] == LastClosed(notes).value && notes[k].Closed?
    ensures forall k :: 0 <= k < |notes| && notes[k].Closed? ==> LastClosed(notes).Some?
  {
    if notes != [] {
      var n := |notes| - 1;
      LastIsOne(notes[..n]);
      if LastClosed(notes).Some? && !notes[n].Closed? {
        var k :| 0 <= k < n && notes[..n][k] == LastClosed(notes[..n]).value;
        assert notes[k] == LastClosed(notes).value;
      }
    }
  }

  lemma {:induction false} LastAt(notes: seq<Note>, p: nat, q: nat)
    requires q <= p < |notes| && notes[q].Closed?
    requires forall k :: q < k <= p ==> !notes[k].Closed?
    ensures LastClosed(notes[..p + 1]) == Some(notes[q])
    decreases p
  {
    var taken := notes[..p + 1];
    assert taken[..p] == notes[..p];
    if q < p {
      LastAt(notes, p - 1, q);
      assert taken[|taken| - 1] == notes[p];
    }
  }

  /** A round that closed short first stands broken at the step it closed; one that did not never does. */
  lemma FirstBreachIsClosing(wire: Wire, notes: seq<Note>, closings: seq<nat>, n: nat, p: nat)
    requires Closes(wire, notes, closings) && |closings| == ROUNDS && n < ROUNDS
    requires forall k :: 0 <= k < |notes| ==> notes[k].round <= ROUNDS
    ensures FirstBreach(Promise(n + 1), SeenOf(notes), p)
            <==> |Reached(wire, n + 1)| < QUORUM && p == closings[n]
  {
    var seen, promise := SeenOf(notes), Promise(n + 1);
    forall q: nat ensures BrokenAt(promise, seen, q) ==> closings[n] <= q && |Reached(wire, n + 1)| < QUORUM {
      if BrokenAt(promise, seen, q) { BrokenOnceClosed(wire, notes, closings, n, q); }
    }
    BrokenWhenClosed(wire, notes, closings, n);
    hide BrokenAt, Closes;
    assert BrokenAt(promise, seen, closings[n]) <==> |Reached(wire, n + 1)| < QUORUM;
  }

  lemma BrokenOnceClosed(wire: Wire, notes: seq<Note>, closings: seq<nat>, n: nat, q: nat)
    requires Closes(wire, notes, closings) && |closings| == ROUNDS && n < ROUNDS
    requires forall k :: 0 <= k < |notes| ==> notes[k].round <= ROUNDS
    requires BrokenAt(Promise(n + 1), SeenOf(notes), q)
    ensures closings[n] <= q && |Reached(wire, n + 1)| < QUORUM
  {
    hide Stands, Reached;
    StandsUnless(notes[..q + 1], n + 1);
    LastIsOne(notes[..q + 1]);
    hide LastClosed, Book;
    var k :| 0 <= k < q + 1 && notes[..q + 1][k] == LastClosed(notes[..q + 1]).value;
    assert notes[k].Closed? && k in closings;
  }

  lemma BrokenWhenClosed(wire: Wire, notes: seq<Note>, closings: seq<nat>, n: nat)
    requires Closes(wire, notes, closings) && |closings| == ROUNDS && n < ROUNDS
    requires forall k :: 0 <= k < |notes| ==> notes[k].round <= ROUNDS
    ensures BrokenAt(Promise(n + 1), SeenOf(notes), closings[n]) <==> |Reached(wire, n + 1)| < QUORUM
  {
    hide Stands, Reached, Book;
    LastAt(notes, closings[n], closings[n]);
    StandsUnless(notes[..closings[n] + 1], n + 1);
  }

  predicate Short(wire: Wire, n: nat) {
    |Reached(wire, n + 1)| < QUORUM
  }

  /** The rounds that reached fewer than a quorum, in order. */
  function ShortRounds(wire: Wire, rounds: nat): seq<nat> {
    if rounds == 0 then []
    else ShortRounds(wire, rounds - 1) + (if Short(wire, rounds - 1) then [rounds - 1] else [])
  }

  lemma {:induction false} ShortRoundsAre(wire: Wire, rounds: nat)
    ensures forall n :: n in ShortRounds(wire, rounds) <==> 0 <= n < rounds && Short(wire, n)
    ensures Climbs(ShortRounds(wire, rounds))
  {
    if rounds > 0 {
      ShortRoundsAre(wire, rounds - 1);
      var fewer := ShortRounds(wire, rounds - 1);
      assert forall i :: 0 <= i < |fewer| ==> fewer[i] in fewer;
    }
  }

  predicate Climbs(q: seq<nat>) {
    forall i, j :: 0 <= i < j < |q| ==> q[i] < q[j]
  }

  lemma SomeIn(q: seq<nat>)
    requires q != []
    ensures exists n :: n in q
  {
    assert q[0] in q;
  }

  /** Two climbing lists of the same numbers are one list. */
  lemma {:induction false} ClimbsOneWay(a: seq<nat>, b: seq<nat>)
    requires Climbs(a) && Climbs(b) && forall n :: n in a <==> n in b
    ensures a == b
  {
    if a == [] {
      if b != [] { SomeIn(b); }
    } else {
      assert a[0] in b && (b == [] || b[0] in a);
      assert a[0] == b[0];
      forall n ensures n in a[1..] <==> n in b[1..] {
        if n in a[1..] { assert n in a && n != a[0]; assert n in b; }
        if n in b[1..] { assert n in b && n != b[0]; assert n in a; }
      }
      ClimbsOneWay(a[1..], b[1..]);
      assert a == [a[0]] + a[1..] && b == [b[0]] + b[1..];
    }
  }

  /** What a check should report of the run: each short round, at the step it closed and the state it left. */
  function ShortReport(wire: Wire, closings: seq<nat>, states: seq<Digest>): (report: seq<Violation>)
    requires |closings| == ROUNDS && forall n :: 0 <= n < ROUNDS ==> closings[n] < |states|
  {
    ShortRoundsAre(wire, ROUNDS);
    var short := ShortRounds(wire, ROUNDS);
    seq(|short|, i requires 0 <= i < |short| && short[i] in short =>
      Violation(NameOf(short[i] + 1), closings[short[i]], states[closings[short[i]]]))
  }

  ghost predicate BreachesAreClosings(wire: Wire, notes: seq<Note>, closings: seq<nat>)
    requires |closings| == ROUNDS
  {
    forall n, p: nat :: 0 <= n < ROUNDS ==>
      (FirstBreach(Promises()[n], SeenOf(notes), p) <==> Short(wire, n) && p == closings[n])
  }

  lemma BreachesAre(wire: Wire, notes: seq<Note>, closings: seq<nat>)
    requires Closes(wire, notes, closings) && |closings| == ROUNDS
    requires forall k :: 0 <= k < |notes| ==> notes[k].round <= ROUNDS
    ensures BreachesAreClosings(wire, notes, closings)
  {
    hide FirstBreach, SeenOf;
    forall n, p: nat | 0 <= n < ROUNDS
      ensures FirstBreach(Promises()[n], SeenOf(notes), p) <==> Short(wire, n) && p == closings[n]
    {
      FirstBreachIsClosing(wire, notes, closings, n, p);
    }
  }

  /** A report is of the short rounds and of them alone, each at the step it closed. */
  lemma ReportOfShort(wire: Wire, notes: seq<Note>, closings: seq<nat>, states: seq<Digest>,
                      report: seq<Violation>, places: seq<nat>)
    requires |closings| == ROUNDS && BreachesAreClosings(wire, notes, closings) && |states| == |notes|
    requires Reports(Promises(), SeenOf(notes), states, report, places)
    ensures forall n :: 0 <= n < ROUNDS && Short(wire, n) ==> n in places
    ensures |report| == |places|
    ensures forall i :: 0 <= i < |places| ==>
              && places[i] < ROUNDS && Short(wire, places[i]) && report[i].step == closings[places[i]] < |states|
              && report[i].broke == NameOf(places[i] + 1) && report[i].state == states[closings[places[i]]]
  {
    hide FirstBreach, SeenOf, Short, InStepOrder;
    forall n | 0 <= n < ROUNDS && Short(wire, n) ensures n in places {
      assert FirstBreach(Promises()[n], SeenOf(notes), closings[n]);
    }
    forall i | 0 <= i < |places| ensures places[i] < ROUNDS && Short(wire, places[i]) && report[i].step == closings[places[i]] {
      assert FirstBreach(Promises()[places[i]], SeenOf(notes), report[i].step);
    }
  }

  /** A check of the run reports exactly the rounds that reached fewer than a quorum, in order, each at
      the step it closed and with the state it left. */
  lemma ReportIsShortRounds(wire: Wire, notes: seq<Note>, closings: seq<nat>, states: seq<Digest>,
                            report: seq<Violation>, places: seq<nat>)
    requires Closes(wire, notes, closings) && |closings| == ROUNDS && |states| == |notes|
    requires forall k :: 0 <= k < |notes| ==> notes[k].round <= ROUNDS
    requires Reports(Promises(), SeenOf(notes), states, report, places)
    ensures report == ShortReport(wire, closings, states)
  {
    hide FirstBreach, SeenOf, Short, Promises, BreachesAreClosings, NameOf, ShortRounds;
    BreachesAre(wire, notes, closings);
    ReportOfShort(wire, notes, closings, states, report, places);
    forall i: nat, j: nat | i < j < |places| ensures places[i] < places[j] {
      assert InStepAt(report, places, i, j);
    }
    ShortRoundsAre(wire, ROUNDS);
    ClimbsOneWay(places, ShortRounds(wire, ROUNDS));
  }

  /** The first of them is the first round short of a quorum; and there is none exactly when every round
      reached one. */
  lemma VerdictIsFirstShortRound(wire: Wire, closings: seq<nat>, states: seq<Digest>)
    requires |closings| == ROUNDS && forall n :: 0 <= n < ROUNDS ==> closings[n] < |states|
    ensures var report := ShortReport(wire, closings, states);
            && (report == [] <==> forall n :: 0 <= n < ROUNDS ==> !Short(wire, n))
            && (report != [] ==>
                  exists n: nat :: Short(wire, n) && n < ROUNDS && (forall m :: 0 <= m < n ==> !Short(wire, m))
                    && report[0].broke == NameOf(n + 1) && report[0].step == closings[n])
  {
    ShortRoundsAre(wire, ROUNDS);
    var short := ShortRounds(wire, ROUNDS);
    if short == [] {
      forall n | 0 <= n < ROUNDS ensures !Short(wire, n) {
        assert n !in short;
      }
    } else {
      var n := short[0];
      assert n in short;
      forall m | 0 <= m < n ensures !Short(wire, m) {
        assert m !in short;
      }
      assert Short(wire, n);
    }
  }
}
