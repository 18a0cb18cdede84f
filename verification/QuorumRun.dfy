/** A whole run of the quorum: what the coordinator wrote down, kept in a store, checked, and judged. */
module QuorumRun {
  import opened Check
  import opened Monitor
  import opened Outcomes
  import opened Quorum
  import opened QuorumVerdict
  import opened Store
  import opened Tree
  import opened World
  import opened Wrappers

  /** Every state a run passes through, and everything under each. */
  function Passed(notes: seq<Note>): set<Node> {
    if notes == [] then {} else Passed(notes[..|notes| - 1]) + Subtrees(Snapshot(Book(notes)))
  }

  /** Each step has its note's instant, and is called what the world as it then stood is called. */
  ghost predicate Named(naming: Naming, held: set<Node>, trace: seq<Recorded>, notes: seq<Note>) {
    && |trace| == |notes|
    && forall k :: 0 <= k < |notes| ==>
         && trace[k].at == NotedAt(notes[k])
         && Snapshot(Book(notes[..k + 1])) in held && trace[k].state == naming(Snapshot(Book(notes[..k + 1])))
  }

  /** The store holds what every step left, under the name the step has for it. */
  ghost predicate Records(store: StateStore, trace: seq<Recorded>, notes: seq<Note>)
    reads store
  {
    store.Valid() && Named(store.naming, store.held, trace, notes)
  }

  /** Keeps every state the run passed through, and names each step's. */
  method Collect(notes: seq<Note>, store: StateStore) returns (trace: seq<Recorded>)
    requires store.Valid() && Tells(store.naming, store.held + Passed(notes))
    modifies store
    ensures Records(store, trace, notes) && store.held == old(store.held) + Passed(notes)
  {
    hide Tree.Closed, Tells, Mirrors, Subtrees, Snapshot, Written, Named, Book, Passed;
    ghost var before := store.held;
    trace := [];
    var world: World := map[];
    var n := 0;
    NothingPassed(store.naming, before, notes);
    while n < |notes|
      invariant 0 <= n <= |notes| && store.Valid() && store.held == before + Passed(notes[..n])
      invariant world == Book(notes[..n]) && Named(store.naming, store.held, trace, notes[..n])
    {
      world := Written(world, notes[n]);
      Grows(notes, n);
      TellsSubset(store.naming, store.held + Subtrees(Snapshot(world)), before + Passed(notes));
      ghost var held := store.held;
      var d := store.Insert(Snapshot(world));
      SubtreesClosed(Snapshot(world));
      NamedMore(store.naming, held, store.held, trace, notes, n);
      trace := trace + [Recorded(NotedAt(notes[n]), d)];
      n := n + 1;
    }
    assert notes[..n] == notes;
  }

  lemma NothingPassed(naming: Naming, held: set<Node>, notes: seq<Note>)
    ensures held + Passed(notes[..0]) == held && Book(notes[..0]) == map[] && Named(naming, held, [], notes[..0])
  {}

  lemma NamedMore(naming: Naming, held: set<Node>, more: set<Node>, trace: seq<Recorded>, notes: seq<Note>, n: nat)
    requires n < |notes| && held <= more && Named(naming, held, trace, notes[..n])
    requires Snapshot(Book(notes[..n + 1])) in more
    ensures Named(naming, more, trace + [Recorded(NotedAt(notes[n]), naming(Snapshot(Book(notes[..n + 1]))))], notes[..n + 1])
  {
    hide Snapshot, Book;
    var all, longer := notes[..n + 1], trace + [Recorded(NotedAt(notes[n]), naming(Snapshot(Book(notes[..n + 1]))))];
    forall k | 0 <= k <= n
      ensures longer[k].at == NotedAt(all[k]) && Snapshot(Book(all[..k + 1])) in more
              && longer[k].state == naming(Snapshot(Book(all[..k + 1])))
    {
      if k == n {
        assert all[..k + 1] == all;
      } else {
        assert all[..k + 1] == notes[..n][..k + 1];
        assert longer[k] == trace[k];
      }
    }
  }

  lemma {:induction false} Grows(notes: seq<Note>, n: nat)
    requires n < |notes|
    ensures Passed(notes[..n + 1]) == Passed(notes[..n]) + Subtrees(Snapshot(Book(notes[..n + 1])))
    ensures Book(notes[..n + 1]) == Written(Book(notes[..n]), notes[n])
    ensures Passed(notes[..n + 1]) <= Passed(notes)
    decreases |notes| - n
  {
    assert notes[..n + 1][..n] == notes[..n];
    if n + 1 < |notes| {
      Grows(notes, n + 1);
    } else {
      assert notes[..n + 1] == notes;
    }
  }

  lemma StepReadsBack(store: StateStore, d: Digest, w: World)
    requires store.Valid() && Snapshot(w) in store.held && d == store.naming(Snapshot(w))
    ensures d in Worlds(store) && Worlds(store)[d] == w
  {
    hide Snapshot, DecodeWorld;
    WorldRoundTrip(w);
  }

  /** Read back, the trace is the run as it was written down. */
  lemma ReadsBack(store: StateStore, trace: seq<Recorded>, notes: seq<Note>)
    requires Records(store, trace, notes)
    ensures ReadTo(Worlds(store), trace, |trace|) && SeenIn(Worlds(store), trace) == SeenOf(notes)
  {
    hide Worlds, Book, Snapshot, Tree.Closed, Tells, Mirrors;
    forall k | 0 <= k < |notes|
      ensures trace[k].state in Worlds(store) && Worlds(store)[trace[k].state] == Book(notes[..k + 1])
    {
      StepReadsBack(store, trace[k].state, Book(notes[..k + 1]));
    }
  }

  lemma NameIsReason(n: nat)
    ensures NameOf(n) != [] && '\n' !in NameOf(n) && '\r' !in NameOf(n)
  {
    var d := Digit(n);
    assert NameOf(n)[0] == 'r';
    assert d == '?' || exists i :: 0 <= i < 10 && d == "0123456789"[i];
    assert d != '\n' && d != '\r';
  }

  /** The first of a report, and a pass when there is none. */
  predicate Judges(report: seq<Violation>, outcome: Outcome) {
    if report == [] then outcome == Pass
    else outcome.Fail? && outcome.reason == report[0].broke && outcome.step == report[0].step
  }

  /** Judges a trace by the promises it broke, read off the worlds it recorded. */
  method Verdict(trace: seq<Recorded>, store: StateStore) returns (r: Result<Outcome, CheckError>)
    requires store.Valid()
    ensures match r
            case Ok(outcome) => exists report, places ::
              Reports(Promises(), SeenIn(Worlds(store), trace), StatesOf(trace), report, places) && Judges(report, outcome)
            case Err(error) => FirstUnreadable(store, trace, error)
  {
    hide Worlds, SeenIn, StatesOf, FirstUnreadable, FirstBreach, InStepOrder, Promises;
    var broken := Check.Check(trace, store, Promises());
    if broken.Err? {
      return Err(broken.error);
    }
    ghost var places :| Reports(Promises(), SeenIn(Worlds(store), trace), StatesOf(trace), broken.value, places);
    if broken.value == [] {
      return Ok(Pass);
    }
    PromiseName(places[0]);
    NameIsReason(places[0] + 1);
    r := Ok(Fail(broken.value[0].broke, broken.value[0].step));
  }

  lemma PromiseName(place: nat)
    requires place < |Promises()|
    ensures Promises()[place].name == NameOf(place + 1)
  {}

  /** A run, whatever was delayed and whatever dropped. Every step it took can be read back, a check of it
      reports exactly the rounds short of a quorum, and it is judged by the first of them at the step that
      round closed; it holds up exactly when every round reached a quorum. */
  method Run(wire: Wire, inbox: seq<Ack>, naming: Naming)
    returns (trace: seq<Recorded>, store: StateStore, outcome: Outcome, ghost report: seq<Violation>, ghost closings: seq<nat>)
    requires Possible(wire) && Lands(wire, inbox) && Tells(naming, Passed(AllNotes(inbox, ROUNDS)))
    ensures fresh(store) && store.naming == naming && Records(store, trace, AllNotes(inbox, ROUNDS))
    ensures |closings| == ROUNDS && Closes(wire, AllNotes(inbox, ROUNDS), closings)
    ensures report == ShortReport(wire, closings, StatesOf(trace)) && Judges(report, outcome)
    ensures outcome == Pass <==> forall n :: 0 <= n < ROUNDS ==> !Short(wire, n)
    ensures outcome.Fail? ==>
              exists n: nat :: Short(wire, n) && n < ROUNDS && (forall m :: 0 <= m < n ==> !Short(wire, m))
                && outcome.reason == NameOf(n + 1) && outcome.step == closings[n]
  {
    hide Lands, Possible, Tells, Mirrors, Passed, AllNotes, Closes, ShortReport, Reports, Short, Judges, Promises, FirstUnreadable;
    var notes;
    notes, closings := Ask(wire, inbox);
    store := new StateStore(naming);
    SameSet(store.held, Passed(notes));
    trace := Collect(notes, store);
    ReadsBack(store, trace, notes);
    report := [];
    var judged := Verdict(trace, store);
    if judged.Err? {
      NoneUnreadable(store, trace, judged.error);
      assert false;
      outcome := Pass;
    } else {
      outcome := judged.value;
      ghost var places: seq<nat>;
      report, places :| Reports(Promises(), SeenOf(notes), StatesOf(trace), report, places) && Judges(report, outcome);
      ReportIsShortRounds(wire, notes, closings, StatesOf(trace), report, places);
      ClosingsInside(wire, notes, closings);
      JudgedByFirst(wire, closings, StatesOf(trace), outcome);
    }
  }

  lemma SameSet(empty: set<Node>, all: set<Node>)
    requires empty == {}
    ensures empty + all == all
  {}

  lemma NoneUnreadable(store: StateStore, trace: seq<Recorded>, error: CheckError)
    requires store.Valid() && ReadTo(Worlds(store), trace, |trace|)
    ensures !FirstUnreadable(store, trace, error)
  {}

  lemma ClosingsInside(wire: Wire, notes: seq<Note>, closings: seq<nat>)
    requires Closes(wire, notes, closings)
    ensures forall n :: 0 <= n < |closings| ==> closings[n] < |notes|
  {}

  lemma JudgedByFirst(wire: Wire, closings: seq<nat>, states: seq<Digest>, outcome: Outcome)
    requires |closings| == ROUNDS && forall n :: 0 <= n < ROUNDS ==> closings[n] < |states|
    requires Judges(ShortReport(wire, closings, states), outcome)
    ensures outcome == Pass <==> forall n :: 0 <= n < ROUNDS ==> !Short(wire, n)
    ensures outcome.Fail? ==>
              exists n: nat :: Short(wire, n) && n < ROUNDS && (forall m :: 0 <= m < n ==> !Short(wire, m))
                && outcome.reason == NameOf(n + 1) && outcome.step == closings[n]
  {
    hide ShortReport, Short;
    VerdictIsFirstShortRound(wire, closings, states);
  }
}
