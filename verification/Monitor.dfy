/** Promises about a run: a definition of where one first breaks, and a watch that finds it in one pass. */
module Monitor {
  import opened Bytes
  import opened Clock
  import opened Tree
  import opened World
  import opened Wrappers

  datatype Kind = Safety | Liveness(within: nat)

  datatype Invariant = Invariant(name: string, kind: Kind, holds: World -> bool)

  /** What a check reads of a step: its instant and a state's name. */
  datatype Recorded = Recorded(at: u64, state: Digest)

  datatype Violation = Violation(broke: string, step: nat, state: Digest)

  datatype CheckError =
    | Missing(step: nat, state: Digest)
    | Decode(step: nat, error: DecodeWorldError)

  // ---------------------------------------------------------------------------------------------
  // What it is for a promise to break

  /** A trace with its states read: each step's instant, and the world it left. */
  type Seen = seq<(u64, World)>

  /** Nothing held from `i` through `p`, and it had held up to `i`. */
  predicate Stretch(inv: Invariant, seen: Seen, i: int, p: int) {
    && 0 <= i <= p < |seen|
    && (forall k :: i <= k <= p ==> !inv.holds(seen[k].1))
    && (i == 0 || inv.holds(seen[i - 1].1))
  }

  /** `at` is more than the span after `since`; never so if that sum is no instant. */
  predicate TooLate(inv: Invariant, since: u64, at: u64) {
    inv.kind.Liveness? && since + inv.kind.within <= END_OF_TIME && at > since + inv.kind.within
  }

  /** A stretch runs up to step `j`, which comes too late for it. */
  ghost predicate Late(inv: Invariant, seen: Seen, j: int) {
    0 < j < |seen| && exists i :: Stretch(inv, seen, i, j - 1) && TooLate(inv, seen[i].0, seen[j].0)
  }

  /** A stretch runs up to the end of the run. */
  ghost predicate Open(inv: Invariant, seen: Seen) {
    |seen| > 0 && OpenAt(inv, seen, |seen| - 1)
  }

  ghost predicate OpenAt(inv: Invariant, seen: Seen, p: int) {
    exists i :: Stretch(inv, seen, i, p)
  }

  /** The promise stands broken at step `p`: it does not hold of the state there, if it must always; or
      that state is the one standing when a recovery was due, or when the run ended short of one. */
  ghost predicate BrokenAt(inv: Invariant, seen: Seen, p: nat) {
    && p < |seen|
    && match inv.kind
       case Safety => !inv.holds(seen[p].1)
       case Liveness(_) => Late(inv, seen, p + 1) || (p == |seen| - 1 && Open(inv, seen))
  }

  ghost predicate FirstBreach(inv: Invariant, seen: Seen, p: nat) {
    BrokenAt(inv, seen, p) && forall q :: 0 <= q < p ==> !BrokenAt(inv, seen, q)
  }

  // ---------------------------------------------------------------------------------------------
  // The watch kept over one promise

  datatype Watch = Holding | Down(deadline: Option<u64>) | Broken(step: nat, state: Digest)

  function CheckedAdd(at: u64, span: nat): Option<u64> {
    if at + span <= END_OF_TIME then Some(at + span) else None
  }

  method Step(watch: Watch, inv: Invariant, world: World, step: nat, state: Digest, at: u64,
              last: Option<(nat, Digest)>) returns (r: Watch)
    ensures r == Stepped(watch, inv, inv.holds(world), step, state, at, last)
  {
    if watch.Broken? {
      return watch;
    }
    if watch.Down? && watch.deadline.Some? && last.Some? && at > watch.deadline.value {
      return Broken(last.value.0, last.value.1);
    }
    var holds := inv.holds(world);
    if holds {
      return Holding;
    }
    match inv.kind
    case Safety => return Broken(step, state);
    case Liveness(within) =>
      return if watch.Down? then watch else Down(CheckedAdd(at, within));
  }

  function Stepped(watch: Watch, inv: Invariant, holds: bool, step: nat, state: Digest, at: u64,
                   last: Option<(nat, Digest)>): Watch {
    match watch
    case Broken(_, _) => watch
    case Down(Some(deadline)) =>
      if last.Some? && at > deadline then Broken(last.value.0, last.value.1)
      else Looked(watch, inv, holds, step, state, at)
    case _ => Looked(watch, inv, holds, step, state, at)
  }

  function Looked(watch: Watch, inv: Invariant, holds: bool, step: nat, state: Digest, at: u64): Watch {
    if holds then Holding
    else match inv.kind
      case Safety => Broken(step, state)
      case Liveness(within) => if watch.Down? then watch else Down(CheckedAdd(at, within))
  }

  ghost predicate NoneLate(inv: Invariant, seen: Seen, n: nat) {
    forall j :: 0 <= j < n ==> !Late(inv, seen, j)
  }

  /** A stretch runs up to step `p`, and must close by `deadline`. */
  ghost predicate Due(inv: Invariant, seen: Seen, p: int, deadline: Option<u64>)
    requires inv.kind.Liveness?
  {
    exists i :: Stretch(inv, seen, i, p) && deadline == CheckedAdd(seen[i].0, inv.kind.within)
  }

  /** What a watch says, having seen the first `n` steps: broken only where the promise first broke, and
      otherwise down exactly while a stretch is open. */
  ghost predicate Watched(watch: Watch, inv: Invariant, seen: Seen, states: seq<Digest>, n: nat)
    requires n <= |seen| == |states|
  {
    match inv.kind
    case Safety =>
      (match watch
       case Holding => forall k :: 0 <= k < n ==> inv.holds(seen[k].1)
       case Down(_) => false
       case Broken(p, state) =>
         && p < n && state == states[p] && !inv.holds(seen[p].1)
         && forall k :: 0 <= k < p ==> inv.holds(seen[k].1))
    case Liveness(within) =>
      (match watch
       case Holding => NoneLate(inv, seen, n) && (n > 0 ==> inv.holds(seen[n - 1].1))
       case Down(deadline) =>
         && NoneLate(inv, seen, n) && n > 0
         && Due(inv, seen, n - 1, deadline)
       case Broken(p, state) =>
         p + 1 < n && state == states[p] && Late(inv, seen, p + 1) && NoneLate(inv, seen, p + 1))
  }

  lemma OneStretch(inv: Invariant, seen: Seen, i: int, j: int, p: int)
    requires Stretch(inv, seen, i, p) && Stretch(inv, seen, j, p)
    ensures i == j
  {
    assert j == 0 || inv.holds(seen[j - 1].1);
    assert i == 0 || inv.holds(seen[i - 1].1);
  }

  /** Where the step before held, or there was none, nothing is late. */
  lemma NotLate(inv: Invariant, seen: Seen, n: nat)
    requires n < |seen| && (n > 0 ==> inv.holds(seen[n - 1].1))
    ensures !Late(inv, seen, n)
  {}

  /** With a stretch open, it is the one and only the next step can be late for. */
  lemma LateIff(inv: Invariant, seen: Seen, i: int, n: nat)
    requires 0 < n < |seen| && Stretch(inv, seen, i, n - 1)
    ensures Late(inv, seen, n) <==> TooLate(inv, seen[i].0, seen[n].0)
  {
    if Late(inv, seen, n) {
      var j :| Stretch(inv, seen, j, n - 1) && TooLate(inv, seen[j].0, seen[n].0);
      OneStretch(inv, seen, i, j, n - 1);
    }
  }

  lemma NoneLateMore(inv: Invariant, seen: Seen, n: nat)
    requires NoneLate(inv, seen, n) && !Late(inv, seen, n)
    ensures NoneLate(inv, seen, n + 1)
  {}

  lemma HoldingSteps(inv: Invariant, seen: Seen, states: seq<Digest>, n: nat)
    requires n < |seen| == |states| && inv.kind.Liveness? && Watched(Holding, inv, seen, states, n)
    ensures Watched(Looked(Holding, inv, inv.holds(seen[n].1), n, states[n], seen[n].0), inv, seen, states, n + 1)
  {
    NotLate(inv, seen, n);
    hide Late, NoneLate;
    NoneLateMore(inv, seen, n);
    if !inv.holds(seen[n].1) {
      assert Stretch(inv, seen, n, n);
      assert Due(inv, seen, n, CheckedAdd(seen[n].0, inv.kind.within));
    }
  }

  lemma DueGrows(deadline: Option<u64>, inv: Invariant, seen: Seen, n: nat)
    requires 0 < n < |seen| && inv.kind.Liveness? && Due(inv, seen, n - 1, deadline) && !inv.holds(seen[n].1)
    ensures Due(inv, seen, n, deadline)
  {
    var i :| Stretch(inv, seen, i, n - 1) && deadline == CheckedAdd(seen[i].0, inv.kind.within);
    StretchGrows(inv, seen, i, n - 1);
  }

  lemma LateIffDue(deadline: Option<u64>, inv: Invariant, seen: Seen, n: nat)
    requires 0 < n < |seen| && inv.kind.Liveness? && Due(inv, seen, n - 1, deadline)
    ensures Late(inv, seen, n) <==> deadline.Some? && seen[n].0 > deadline.value
  {
    hide Late;
    var i :| Stretch(inv, seen, i, n - 1) && deadline == CheckedAdd(seen[i].0, inv.kind.within);
    LateIff(inv, seen, i, n);
  }

  lemma StretchGrows(inv: Invariant, seen: Seen, i: int, p: int)
    requires Stretch(inv, seen, i, p) && p + 1 < |seen| && !inv.holds(seen[p + 1].1)
    ensures Stretch(inv, seen, i, p + 1)
  {}

  lemma DownSteps(deadline: Option<u64>, inv: Invariant, seen: Seen, states: seq<Digest>, n: nat)
    requires n < |seen| == |states| && inv.kind.Liveness? && Watched(Down(deadline), inv, seen, states, n)
    ensures Watched(Stepped(Down(deadline), inv, inv.holds(seen[n].1), n, states[n], seen[n].0, Some((n - 1, states[n - 1]))),
                    inv, seen, states, n + 1)
  {
    hide Late, NoneLate, Due;
    LateIffDue(deadline, inv, seen, n);
    if !inv.holds(seen[n].1) { DueGrows(deadline, inv, seen, n); }
    if !Late(inv, seen, n) {
      NoneLateMore(inv, seen, n);
    }
  }

  /** One step keeps the watch true. */
  lemma StepWatched(watch: Watch, inv: Invariant, seen: Seen, states: seq<Digest>, n: nat)
    requires n < |seen| == |states| && Watched(watch, inv, seen, states, n)
    ensures var last := if n == 0 then None else Some((n - 1, states[n - 1]));
            Watched(Stepped(watch, inv, inv.holds(seen[n].1), n, states[n], seen[n].0, last), inv, seen, states, n + 1)
  {
    hide Late, NoneLate, Due;
    if inv.kind.Liveness? {
      match watch
      case Broken(_, _) =>
      case Holding => HoldingSteps(inv, seen, states, n);
      case Down(deadline) => DownSteps(deadline, inv, seen, states, n);
    }
  }

  lemma OpenIffDown(watch: Watch, inv: Invariant, seen: Seen, states: seq<Digest>)
    requires |seen| == |states| && Watched(watch, inv, seen, states, |seen|) && inv.kind.Liveness? && !watch.Broken?
    ensures Open(inv, seen) <==> watch.Down?
  {}

  /** What a watch says once the whole trace is seen is where the promise first broke. */
  lemma WatchedSays(watch: Watch, inv: Invariant, seen: Seen, states: seq<Digest>, p: nat)
    requires |seen| == |states| && Watched(watch, inv, seen, states, |seen|)
    ensures FirstBreach(inv, seen, p)
            <==> match watch
                 case Holding => false
                 case Down(_) => p == |seen| - 1
                 case Broken(q, _) => p == q
  {
    if inv.kind.Liveness? {
      hide Late, Open, Stretch;
      assert !Late(inv, seen, |seen|) by { NothingAfter(inv, seen); }
      if watch.Broken? {
        assert BrokenAt(inv, seen, watch.step);
      } else {
        OpenIffDown(watch, inv, seen, states);
        assert watch.Down? ==> BrokenAt(inv, seen, |seen| - 1);
      }
    } else if watch.Broken? {
      assert BrokenAt(inv, seen, watch.step);
    }
  }

  lemma NothingAfter(inv: Invariant, seen: Seen)
    ensures !Late(inv, seen, |seen|)
  {}

  // ---------------------------------------------------------------------------------------------
  // What it is for a promise to be kept

  /** A safety promise first breaks where some state is against it and none before was. */
  lemma SafetyBreaksWhere(inv: Invariant, seen: Seen, p: nat)
    requires inv.kind == Safety
    ensures FirstBreach(inv, seen, p)
            <==> p < |seen| && !inv.holds(seen[p].1) && forall q :: 0 <= q < p ==> inv.holds(seen[q].1)
  {
    if FirstBreach(inv, seen, p) {
      forall q | 0 <= q < p ensures inv.holds(seen[q].1) {
        assert !BrokenAt(inv, seen, q);
      }
    }
  }

  /** It stops holding at step `i`, having held at the step before if there was one. */
  predicate Stops(inv: Invariant, seen: Seen, i: nat) {
    i < |seen| && !inv.holds(seen[i].1) && (i > 0 ==> inv.holds(seen[i - 1].1))
  }

  /** It holds again at step `j`, for the first time since it stopped at `i`, no step from there on being later than
      the span allows. */
  predicate Recovers(inv: Invariant, seen: Seen, within: nat, i: nat, j: nat) {
    && i < j < |seen| && inv.holds(seen[j].1)
    && (forall k :: i < k < j ==> !inv.holds(seen[k].1))
    && (forall k :: i < k <= j ==> seen[k].0 <= seen[i].0 + within)
  }

  /** A liveness promise is kept exactly when every lapse of it is over inside the span, a recovery on the deadline
      counting. */
  lemma LivenessKeptIff(inv: Invariant, seen: Seen, within: nat)
    requires inv.kind == Liveness(within)
    ensures (forall p: nat :: !FirstBreach(inv, seen, p))
            <==> forall i: nat :: Stops(inv, seen, i) ==> exists j: nat :: Recovers(inv, seen, within, i, j)
  {
    if exists p: nat :: FirstBreach(inv, seen, p) {
      var p: nat :| FirstBreach(inv, seen, p);
      var i := BreachStops(inv, seen, within, p);
    }
    if exists i: nat :: Stops(inv, seen, i) && forall j: nat :: !Recovers(inv, seen, within, i, j) {
      var i: nat :| Stops(inv, seen, i) && forall j: nat :: !Recovers(inv, seen, within, i, j);
      var q := StopBreaks(inv, seen, within, i, i);
      SomeFirst(inv, seen, q);
    }
  }

  /** The step a breach of it names is one it does not hold at: the last before the deadline was passed, or the last
      there is. */
  lemma BreachStops(inv: Invariant, seen: Seen, within: nat, p: nat) returns (i: nat)
    requires inv.kind == Liveness(within) && BrokenAt(inv, seen, p)
    ensures i <= p < |seen| && Stops(inv, seen, i) && forall k :: i <= k <= p ==> !inv.holds(seen[k].1)
    ensures p == |seen| - 1 || seen[p + 1].0 > seen[i].0 + within
    ensures forall j: nat :: !Recovers(inv, seen, within, i, j)
  {
    var n: int :| Stretch(inv, seen, n, p)
                  && (p == |seen| - 1 || (p + 1 < |seen| && TooLate(inv, seen[n].0, seen[p + 1].0)));
    i := n;
    forall j: nat ensures !Recovers(inv, seen, within, i, j) {
      NoRecovery(inv, seen, within, i, p, j);
    }
  }

  lemma NoRecovery(inv: Invariant, seen: Seen, within: nat, i: nat, p: nat, j: nat)
    requires i <= p < |seen| && forall k :: i <= k <= p ==> !inv.holds(seen[k].1)
    requires p == |seen| - 1 || seen[p + 1].0 > seen[i].0 + within
    ensures !Recovers(inv, seen, within, i, j)
  {}

  /** With no recovery in time, the promise stands broken at some step from `n` on. */
  lemma {:induction false} StopBreaks(inv: Invariant, seen: Seen, within: nat, i: nat, n: nat) returns (q: nat)
    requires inv.kind == Liveness(within) && Stops(inv, seen, i) && i <= n < |seen|
    requires forall j: nat :: !Recovers(inv, seen, within, i, j)
    requires forall k :: i <= k <= n ==> !inv.holds(seen[k].1)
    requires forall k :: i < k <= n ==> seen[k].0 <= seen[i].0 + within
    ensures BrokenAt(inv, seen, q)
    decreases |seen| - n
  {
    q := n;
    assert Stretch(inv, seen, i, n);
    if n + 1 < |seen| {
      if seen[n + 1].0 > seen[i].0 + within {
        assert TooLate(inv, seen[i].0, seen[n + 1].0);
        assert Late(inv, seen, n + 1);
      } else {
        assert !Recovers(inv, seen, within, i, n + 1);
        q := StopBreaks(inv, seen, within, i, n + 1);
      }
    } else {
      assert OpenAt(inv, seen, n);
    }
  }

  lemma {:induction false} SomeFirst(inv: Invariant, seen: Seen, q: nat)
    requires BrokenAt(inv, seen, q)
    ensures exists p: nat :: FirstBreach(inv, seen, p)
  {
    if forall r :: 0 <= r < q ==> !BrokenAt(inv, seen, r) {
      assert FirstBreach(inv, seen, q);
    } else {
      var r: nat :| r < q && BrokenAt(inv, seen, r);
      SomeFirst(inv, seen, r);
    }
  }
}
