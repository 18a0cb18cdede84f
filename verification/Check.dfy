/** The check itself: one pass over a trace, every promise watched at once, and a report of each that
    broke in the order of the step it first broke at. */
module Check {
  import opened Bytes
  import opened Monitor
  import opened Order
  import opened Store
  import opened Tree
  import opened World
  import opened Wrappers

  // ---------------------------------------------------------------------------------------------
  // A stable sort

  /** The earlier of two stands at an earlier step, or at the same step and an earlier place. */
  ghost predicate InStepAt(report: seq<Violation>, places: seq<nat>, j: nat, k: nat)
    requires j < k < |report| == |places|
  {
    report[j].step < report[k].step || (report[j].step == report[k].step && places[j] < places[k])
  }

  ghost predicate InStepOrder(report: seq<Violation>, places: seq<nat>)
    requires |report| == |places|
  {
    forall i: nat, j: nat :: i < j < |report| ==> InStepAt(report, places, i, j)
  }

  /** `report` is `list` in some other order: the `i`th of it is the `perm[i]`th. */
  ghost predicate Permutes(list: seq<Violation>, report: seq<Violation>, perm: seq<nat>) {
    && |report| == |perm| == |list|
    && (forall i :: 0 <= i < |perm| ==> perm[i] < |list| && report[i] == list[perm[i]])
    && (forall k :: 0 <= k < |list| ==> k in perm)
  }

  /** Sorts by step, those at one step staying in the order they were given. */
  method SortByStep(list: seq<Violation>) returns (report: seq<Violation>, ghost perm: seq<nat>)
    ensures Permutes(list, report, perm) && InStepOrder(report, perm)
  {
    report, perm := [], [];
    var n := 0;
    while n < |list|
      invariant 0 <= n <= |list|
      invariant Permutes(list[..n], report, perm) && InStepOrder(report, perm)
    {
      report, perm := Insert(list[..n], report, perm, list[n]);
      TakeMore(list, n);
      n := n + 1;
    }
    TakeAll(list);
  }

  /** Puts one more violation after all those no later than it. */
  method Insert(list: seq<Violation>, report: seq<Violation>, ghost perm: seq<nat>, v: Violation)
    returns (longer: seq<Violation>, ghost places: seq<nat>)
    requires Permutes(list, report, perm) && InStepOrder(report, perm)
    ensures Permutes(list + [v], longer, places) && InStepOrder(longer, places)
  {
    var i := |report|;
    while i > 0 && report[i - 1].step > v.step
      invariant 0 <= i <= |report|
      invariant forall k :: i <= k < |report| ==> report[k].step > v.step
    {
      i := i - 1;
    }
    longer := Inserted(report, v, i);
    places := Inserted(perm, |list|, i);
    InsertPermutes(list, report, perm, v, i);
    InsertInOrder(list, report, perm, v, i);
  }

  lemma InsertPermutes(list: seq<Violation>, report: seq<Violation>, perm: seq<nat>, v: Violation, i: nat)
    requires Permutes(list, report, perm) && i <= |report|
    ensures Permutes(list + [v], Inserted(report, v, i), Inserted(perm, |list|, i))
  {
    var places := Inserted(perm, |list|, i);
    forall k | 0 <= k < |list| + 1 ensures k in places {
      if k == |list| {
        assert places[i] == k;
      } else {
        assert k in perm;
        var j :| 0 <= j < |perm| && perm[j] == k;
        assert places[if j < i then j else j + 1] == k;
      }
    }
  }

  lemma InsertInOrder(list: seq<Violation>, report: seq<Violation>, perm: seq<nat>, v: Violation, i: nat)
    requires Permutes(list, report, perm) && InStepOrder(report, perm) && i <= |report|
    requires i > 0 ==> report[i - 1].step <= v.step
    requires forall k :: i <= k < |report| ==> report[k].step > v.step
    ensures InStepOrder(Inserted(report, v, i), Inserted(perm, |list|, i))
  {
    var longer, places := Inserted(report, v, i), Inserted(perm, |list|, i);
    hide InStepAt, Permutes, Inserted;
    forall j: nat, k: nat | j < k <= |report| ensures InStepAt(longer, places, j, k) {
      InsertedInOrder(list, report, perm, v, i, j, k);
    }
    assert InStepOrder(longer, places);
  }

  function Inserted<T>(q: seq<T>, x: T, i: nat): (r: seq<T>)
    requires i <= |q|
    ensures |r| == |q| + 1 && forall j :: 0 <= j <= |q| ==> r[j] == if j < i then q[j] else if j == i then x else q[j - 1]
  {
    q[..i] + [x] + q[i..]
  }

  lemma InsertedInOrder(list: seq<Violation>, report: seq<Violation>, perm: seq<nat>, v: Violation, i: nat, j: nat, k: nat)
    requires Permutes(list, report, perm) && InStepOrder(report, perm) && i <= |report| && j < k <= |report|
    requires i > 0 ==> report[i - 1].step <= v.step
    requires forall k :: i <= k < |report| ==> report[k].step > v.step
    ensures InStepAt(Inserted(report, v, i), Inserted(perm, |list|, i), j, k)
  {
    var longer, places := Inserted(report, v, i), Inserted(perm, |list|, i);
    if k == i {
      NotLater(list, report, perm, v, i, j);
      assert longer[k] == v && longer[j] == report[j];
      assert places[k] == |list| && places[j] == perm[j];
    } else if j != i {
      var a, b := if j < i then j else j - 1, if k < i then k else k - 1;
      assert InStepAt(report, perm, a, b);
    } else {
      assert report[k - 1].step > v.step;
    }
  }

  lemma NotLater(list: seq<Violation>, report: seq<Violation>, perm: seq<nat>, v: Violation, i: nat, j: nat)
    requires Permutes(list, report, perm) && InStepOrder(report, perm) && j < i <= |report|
    requires report[i - 1].step <= v.step
    ensures report[j].step <= v.step && perm[j] < |list|
  {
    if j < i - 1 { assert InStepAt(report, perm, j, i - 1); }
  }

  // ---------------------------------------------------------------------------------------------
  // The check

  /** The worlds a store holds, by the names they answer to. */
  ghost function Worlds(store: StateStore): map<Digest, World>
    reads store
    requires store.Valid()
  {
    map d | d in store.nodes && DecodeWorld(store.Named(d)).Ok? :: DecodeWorld(store.Named(d)).value
  }

  /** A trace with its states read, as far as they can be. */
  ghost function SeenIn(worlds: map<Digest, World>, trace: seq<Recorded>): (seen: Seen)
    ensures |seen| == |trace|
    ensures forall i :: 0 <= i < |seen| ==>
              && seen[i].0 == trace[i].at
              && (trace[i].state in worlds ==> seen[i].1 == worlds[trace[i].state])
  {
    seq(|trace|, i requires 0 <= i < |trace| =>
      (trace[i].at, if trace[i].state in worlds then worlds[trace[i].state] else map[]))
  }

  /** Whether each of a trace's first `n` states can be read. */
  ghost predicate ReadTo(worlds: map<Digest, World>, trace: seq<Recorded>, n: nat)
    requires n <= |trace|
  {
    forall i :: 0 <= i < n ==> trace[i].state in worlds
  }

  function StatesOf(trace: seq<Recorded>): (states: seq<Digest>)
    ensures |states| == |trace| && forall i :: 0 <= i < |trace| ==> states[i] == trace[i].state
  {
    seq(|trace|, i requires 0 <= i < |trace| => trace[i].state)
  }

  /** What a check reports: each promise that broke, at the first step it broke and the state it left,
      and no other; ordered by step, and at one step by where the promises stand. */
  ghost predicate Reports(invariants: seq<Invariant>, seen: Seen, states: seq<Digest>,
                          report: seq<Violation>, places: seq<nat>)
    requires |seen| == |states|
  {
    && |places| == |report|
    && (forall i :: 0 <= i < |report| ==>
          && places[i] < |invariants| && report[i].broke == invariants[places[i]].name
          && FirstBreach(invariants[places[i]], seen, report[i].step)
          && report[i].step < |states| && report[i].state == states[report[i].step])
    && (forall k, p :: 0 <= k < |invariants| && FirstBreach(invariants[k], seen, p) ==> k in places)
    && InStepOrder(report, places)
  }

  /** A report names each promise by its own name, at most once, steps in order and, at one step, promises in the
      order they were given. */
  lemma ReportInOrder(invariants: seq<Invariant>, seen: Seen, states: seq<Digest>, report: seq<Violation>, places: seq<nat>)
    requires |seen| == |states| && Reports(invariants, seen, states, report, places)
    ensures |places| == |report|
    ensures forall i :: 0 <= i < |report| ==> places[i] < |invariants| && report[i].broke == invariants[places[i]].name
    ensures forall i, j :: 0 <= i < j < |report| ==>
              report[i].step < report[j].step || (report[i].step == report[j].step && places[i] < places[j])
    ensures forall i, j :: 0 <= i < j < |report| ==> places[i] != places[j]
  {
    hide FirstBreach;
    forall i, j | 0 <= i < j < |report|
      ensures places[i] != places[j]
      ensures report[i].step < report[j].step || (report[i].step == report[j].step && places[i] < places[j])
    {
      assert InStepAt(report, places, i, j);
      if places[i] == places[j] {
        OneBreach(invariants[places[i]], seen, report[i].step, report[j].step);
      }
    }
  }

  /** A promise first breaks at one step. */
  lemma OneBreach(inv: Invariant, seen: Seen, p: nat, q: nat)
    requires FirstBreach(inv, seen, p) && FirstBreach(inv, seen, q)
    ensures p == q
  {
    hide BrokenAt;
  }

  /** Why the state of one step cannot be read as a world. */
  ghost predicate Unreadable(store: StateStore, step: nat, d: Digest, error: CheckError)
    reads store
    requires store.Valid()
  {
    && error.step == step
    && match error
       case Missing(_, state) => state == d && d !in store.nodes
       case Decode(_, why) => d in store.nodes && DecodeWorld(store.Named(d)) == Err(why)
  }

  /** The first step whose state cannot be read as a world, and why. */
  ghost predicate FirstUnreadable(store: StateStore, trace: seq<Recorded>, error: CheckError)
    reads store
    requires store.Valid()
  {
    && error.step < |trace|
    && ReadTo(Worlds(store), trace, error.step)
    && Unreadable(store, error.step, trace[error.step].state, error)
  }

  lemma UnreadableAt(store: StateStore, trace: seq<Recorded>, n: nat, error: CheckError)
    requires store.Valid() && n < |trace| && ReadTo(Worlds(store), trace, n)
    requires Unreadable(store, n, trace[n].state, error)
    ensures FirstUnreadable(store, trace, error)
  {}

  lemma NothingRead(worlds: map<Digest, World>, trace: seq<Recorded>)
    ensures ReadTo(worlds, trace, 0)
  {}

  lemma ReadOneMore(worlds: map<Digest, World>, trace: seq<Recorded>, n: nat)
    requires n < |trace| && ReadTo(worlds, trace, n) && trace[n].state in worlds
    ensures ReadTo(worlds, trace, n + 1)
  {}

  /** Every watch moved on by one step. */
  method StepAll(watches: seq<Watch>, invariants: seq<Invariant>, world: World, step: nat, state: Digest,
                 at: u64, last: Option<(nat, Digest)>) returns (moved: seq<Watch>)
    requires |watches| == |invariants|
    ensures |moved| == |watches|
    ensures forall k :: 0 <= k < |moved| ==>
              moved[k] == Stepped(watches[k], invariants[k], invariants[k].holds(world), step, state, at, last)
  {
    moved := [];
    while |moved| < |watches|
      invariant |moved| <= |watches|
      invariant forall k :: 0 <= k < |moved| ==>
                  moved[k] == Stepped(watches[k], invariants[k], invariants[k].holds(world), step, state, at, last)
      decreases |watches| - |moved|
    {
      var k := |moved|;
      var watch := Monitor.Step(watches[k], invariants[k], world, step, state, at, last);
      moved := moved + [watch];
    }
  }

  ghost predicate AllWatched(watches: seq<Watch>, invariants: seq<Invariant>, seen: Seen, states: seq<Digest>, n: nat)
    requires n <= |seen| == |states|
  {
    && |watches| == |invariants|
    && forall k :: 0 <= k < |watches| ==> Watched(watches[k], invariants[k], seen, states, n)
  }

  /** Every watch true of the first `n` steps, moved on to be true of one more. */
  method Advance(watches: seq<Watch>, invariants: seq<Invariant>, ghost seen: Seen, ghost states: seq<Digest>,
                 n: nat, world: World, state: Digest, at: u64, last: Option<(nat, Digest)>)
    returns (moved: seq<Watch>)
    requires n < |seen| == |states| && seen[n] == (at, world) && states[n] == state
    requires last == if n == 0 then None else Some((n - 1, states[n - 1]))
    requires AllWatched(watches, invariants, seen, states, n)
    ensures AllWatched(moved, invariants, seen, states, n + 1)
  {
    hide Watched;
    moved := StepAll(watches, invariants, world, n, state, at, last);
    forall k | 0 <= k < |moved| ensures Watched(moved[k], invariants[k], seen, states, n + 1) {
      StepWatched(watches[k], invariants[k], seen, states, n);
    }
  }

  /** The promises broken by the end, in the order they were given. */
  method Collect(watches: seq<Watch>, invariants: seq<Invariant>, ghost seen: Seen, states: seq<Digest>)
    returns (broken: seq<Violation>, ghost places: seq<nat>)
    requires |seen| == |states| && |watches| == |invariants|
    requires forall k :: 0 <= k < |watches| ==> Watched(watches[k], invariants[k], seen, states, |seen|)
    ensures |places| == |broken|
    ensures forall i :: 0 <= i < |broken| ==> Stands(invariants, seen, states, broken[i], places[i])
    ensures forall k, p :: 0 <= k < |invariants| && FirstBreach(invariants[k], seen, p) ==> k in places
    ensures forall i, j :: 0 <= i < j < |places| ==> places[i] < places[j]
  {
    hide Watched, FirstBreach;
    broken, places := [], [];
    var k := 0;
    while k < |invariants|
      invariant 0 <= k <= |invariants| && |places| == |broken|
      invariant forall i :: 0 <= i < |broken| ==> Stands(invariants, seen, states, broken[i], places[i])
      invariant forall i :: 0 <= i < |places| ==> places[i] < k
      invariant forall j, p :: 0 <= j < k && FirstBreach(invariants[j], seen, p) ==> j in places
      invariant forall i, j :: 0 <= i < j < |places| ==> places[i] < places[j]
    {
      var found: Option<(nat, Digest)> := None;
      match watches[k] {
        case Broken(step, state) => found := Some((step, state));
        case Down(_) => if |states| > 0 { found := Some((|states| - 1, states[|states| - 1])); }
        case Holding =>
      }
      FoundIs(watches[k], invariants[k], seen, states, found);
      if found.Some? {
        broken := broken + [Violation(invariants[k].name, found.value.0, found.value.1)];
        places := places + [k];
        assert k in places;
      }
      k := k + 1;
    }
  }

  ghost predicate Stands(invariants: seq<Invariant>, seen: Seen, states: seq<Digest>, v: Violation, place: nat) {
    && place < |invariants| && v.broke == invariants[place].name
    && FirstBreach(invariants[place], seen, v.step)
    && v.step < |states| && v.state == states[v.step]
  }

  lemma FoundIs(watch: Watch, inv: Invariant, seen: Seen, states: seq<Digest>, found: Option<(nat, Digest)>)
    requires |seen| == |states| && Watched(watch, inv, seen, states, |seen|)
    requires match watch
             case Holding => found.None?
             case Broken(p, state) => found == Some((p, state))
             case Down(_) => if |states| > 0 then found == Some((|states| - 1, states[|states| - 1])) else found.None?
    ensures found.Some? ==> FirstBreach(inv, seen, found.value.0)
                            && found.value.0 < |states| && found.value.1 == states[found.value.0]
    ensures forall p: nat :: FirstBreach(inv, seen, p) ==> found.Some? && p == found.value.0
  {
    hide FirstBreach;
    forall p: nat ensures FirstBreach(inv, seen, p) ==> found.Some? && p == found.value.0 {
      WatchedSays(watch, inv, seen, states, p);
      if FirstBreach(inv, seen, p) { BreachInside(inv, seen, p); }
    }
    if found.Some? { WatchedSays(watch, inv, seen, states, found.value.0); }
  }

  lemma BreachInside(inv: Invariant, seen: Seen, p: nat)
    requires FirstBreach(inv, seen, p)
    ensures p < |seen|
  {}

  /** The world one step left, or why it cannot be read. */
  method ReadStep(store: StateStore, step: nat, state: Digest) returns (r: Result<World, CheckError>)
    requires store.Valid()
    ensures match r
            case Ok(world) => state in Worlds(store) && Worlds(store)[state] == world
            case Err(error) => Unreadable(store, step, state, error)
  {
    hide Closed, Tells, Mirrors, DecodeWorld;
    var node := store.Get(state);
    if node.None? {
      return Err(Missing(step, state));
    }
    var world := ReadWorld(node.value);
    if world.Err? {
      return Err(Decode(step, world.error));
    }
    return Ok(world.value);
  }

  /** What the watches say once the whole trace is seen, in the order a report has it. */
  method Report(watches: seq<Watch>, invariants: seq<Invariant>, ghost seen: Seen, states: seq<Digest>)
    returns (report: seq<Violation>, ghost places: seq<nat>)
    requires |seen| == |states| && AllWatched(watches, invariants, seen, states, |seen|)
    ensures Reports(invariants, seen, states, report, places)
  {
    hide Watched, FirstBreach, Reports, InStepOrder;
    var broken, where := Collect(watches, invariants, seen, states);
    ghost var perm;
    report, perm := SortByStep(broken);
    places := seq(|perm|, i requires 0 <= i < |perm| && perm[i] < |where| => where[perm[i]]);
    SortedReports(invariants, seen, states, broken, where, report, perm, places);
  }

  /** Checks every step of a trace against every promise, reading each step's world out of the store. */
  method Check(trace: seq<Recorded>, store: StateStore, invariants: seq<Invariant>)
    returns (r: Result<seq<Violation>, CheckError>)
    requires store.Valid()
    ensures match r
            case Ok(report) =>
              && ReadTo(Worlds(store), trace, |trace|)
              && exists places :: Reports(invariants, SeenIn(Worlds(store), trace), StatesOf(trace), report, places)
            case Err(error) => FirstUnreadable(store, trace, error)
  {
    hide Closed, Tells, Mirrors, AllWatched, DecodeWorld, Reports, Worlds, SeenIn, StatesOf, ReadTo, FirstUnreadable;
    ghost var worlds := Worlds(store);
    ghost var seen := SeenIn(worlds, trace);
    ghost var states := StatesOf(trace);
    var watches := seq(|invariants|, k => Holding);
    var last: Option<(nat, Digest)> := None;
    var n := 0;
    NothingRead(worlds, trace);
    NothingSeen(invariants, seen, states, watches);
    while n < |trace|
      invariant 0 <= n <= |trace|
      invariant last == if n == 0 then None else Some((n - 1, states[n - 1]))
      invariant ReadTo(worlds, trace, n)
      invariant AllWatched(watches, invariants, seen, states, n)
    {
      var world := ReadStep(store, n, trace[n].state);
      if world.Err? {
        UnreadableAt(store, trace, n, world.error);
        return Err(world.error);
      }
      ReadOneMore(worlds, trace, n);
      watches := Advance(watches, invariants, seen, states, n, world.value, trace[n].state, trace[n].at, last);
      last := Some((n, trace[n].state));
      n := n + 1;
    }
    var report, where := Report(watches, invariants, seen, StatesOf(trace));
    return Ok(report);
  }

  lemma NothingSeen(invariants: seq<Invariant>, seen: Seen, states: seq<Digest>, watches: seq<Watch>)
    requires |seen| == |states| && |watches| == |invariants| && forall k :: 0 <= k < |watches| ==> watches[k] == Holding
    ensures AllWatched(watches, invariants, seen, states, 0)
  {}

  lemma SortedReports(invariants: seq<Invariant>, seen: Seen, states: seq<Digest>, broken: seq<Violation>,
                      where: seq<nat>, report: seq<Violation>, perm: seq<nat>, places: seq<nat>)
    requires |seen| == |states| && |where| == |broken|
    requires Permutes(broken, report, perm) && InStepOrder(report, perm)
    requires |places| == |perm| && forall i :: 0 <= i < |perm| ==> places[i] == where[perm[i]]
    requires forall i :: 0 <= i < |broken| ==> Stands(invariants, seen, states, broken[i], where[i])
    requires forall k, p :: 0 <= k < |invariants| && FirstBreach(invariants[k], seen, p) ==> k in where
    requires forall i, j :: 0 <= i < j < |where| ==> where[i] < where[j]
    ensures Reports(invariants, seen, states, report, places)
  {
    hide FirstBreach;
    forall i | 0 <= i < |report| ensures Stands(invariants, seen, states, report[i], places[i]) {}
    forall k, p | 0 <= k < |invariants| && FirstBreach(invariants[k], seen, p) ensures k in places {
      assert k in where;
      var j :| 0 <= j < |where| && where[j] == k;
      assert j in perm;
      var i :| 0 <= i < |perm| && perm[i] == j;
      assert places[i] == k;
    }
    forall i: nat, j: nat | i < j < |report| ensures InStepAt(report, places, i, j) {
      assert InStepAt(report, perm, i, j);
    }
  }
}
