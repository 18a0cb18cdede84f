/** What is injected into a run, and the two ways a fault is made smaller. */
module Faults {
  import opened Bytes
  import opened Clock
  import opened Wrappers

  type u32 = x: int | 0 <= x < 0x1_0000_0000

  datatype AnyWindow = Window(start: u64, end: u64)
  /** The instants a fault is in force for: from its start up to its end, which it does not hold unless
      that is the end of time. */
  type Window = w: AnyWindow | w.start <= w.end witness Window(0, 0)

  datatype WindowError = Backwards(start: u64, end: u64)

  function NewWindow(start: u64, end: u64): (window: Result<Window, WindowError>)
    ensures window.Ok? <==> start <= end
    ensures window.Ok? ==> window.value.start == start && window.value.end == end
    ensures window.Err? ==> window.error.start == start && window.error.end == end
  {
    if end < start then Err(Backwards(start, end)) else Ok(Window(start, end))
  }

  predicate Holds(w: Window, at: u64) {
    w.start <= at && (at < w.end || w.end == END_OF_TIME)
  }

  /** Two windows laid end to end hold every instant the one window over both would, and none is held by both
      unless they meet at the end of time, which each of them then holds. */
  lemma WindowsMeet(start: u64, middle: u64, end: u64)
    requires start <= middle <= end
    ensures forall at: u64 ::
              Holds(Window(start, middle), at) || Holds(Window(middle, end), at) <==> Holds(Window(start, end), at)
    ensures (exists at: u64 :: Holds(Window(start, middle), at) && Holds(Window(middle, end), at)) <==> middle == END_OF_TIME
    ensures forall at: u64 :: Holds(Window(start, end), at) ==> start <= at
    ensures start < end ==> Holds(Window(start, end), start)
    ensures end < END_OF_TIME ==> !Holds(Window(start, end), end)
    ensures Holds(Window(start, END_OF_TIME), END_OF_TIME)
  {
    if middle == END_OF_TIME {
      assert Holds(Window(start, middle), middle) && Holds(Window(middle, end), middle);
    }
  }

  function Clamp(x: u64, low: u64, high: u64): (r: u64)
    requires low <= high
    ensures low <= r <= high
    ensures low <= x <= high ==> r == x
  {
    if x < low then low else if x > high then high else x
  }

  /** `w` with its ends moved inward. Never outward, and never past each other, whatever is asked for. */
  function NarrowedTo(w: Window, start: u64, end: u64): (r: Window)
    ensures w.start <= r.start && r.end <= w.end
    ensures w.start <= start <= end <= w.end ==> r == Window(start, end)
    ensures forall at: u64 :: Holds(r, at) ==> Holds(w, at)
  {
    var s := Clamp(start, w.start, w.end);
    Window(s, Clamp(end, s, w.end))
  }

  datatype AnyOdds = Odds(numerator: u32, denominator: u32)
  type Odds = o: AnyOdds | o.numerator <= o.denominator && o.denominator > 0 witness Odds(0, 1)

  datatype OddsError = NoTrials | TooLikely(numerator: u32, denominator: u32)

  function NewOdds(numerator: u32, denominator: u32): (odds: Result<Odds, OddsError>)
    ensures odds.Ok? <==> numerator <= denominator && denominator > 0
    ensures odds.Ok? ==> odds.value.numerator == numerator && odds.value.denominator == denominator
    ensures odds.Err? ==> (odds.error == NoTrials <==> denominator == 0)
    ensures odds.Err? && odds.error.TooLikely? ==> odds.error.numerator == numerator && odds.error.denominator == denominator
  {
    if denominator == 0 then Err(NoTrials)
    else if numerator > denominator then Err(TooLikely(numerator, denominator))
    else Ok(Odds(numerator, denominator))
  }

  function LoweredTo(o: Odds, numerator: u32): (r: Odds)
    ensures r.denominator == o.denominator && r.numerator <= o.numerator
    ensures numerator <= o.numerator ==> r.numerator == numerator
  {
    Odds(if numerator <= o.numerator then numerator else o.numerator, o.denominator)
  }

  datatype Fault =
    | Partition(sender: u64, receiver: u64, during: Window)
    | Loss(sender: u64, receiver: u64, during: Window, odds: Odds)

  predicate Applies(f: Fault, sender: u64, receiver: u64, at: u64) {
    f.sender == sender && f.receiver == receiver && Holds(f.during, at)
  }

  /** How many occurrences a fault's odds hold, for the faults that draw. */
  function Numerator(f: Fault): nat {
    if f.Loss? then f.odds.numerator else 0
  }

  /** `f` is `g` with its window moved inward and its odds lowered, and nothing else changed. */
  predicate Within(f: Fault, g: Fault) {
    && f.Loss? == g.Loss? && f.sender == g.sender && f.receiver == g.receiver
    && g.during.start <= f.during.start && f.during.end <= g.during.end
    && (f.Loss? ==> f.odds.denominator == g.odds.denominator && f.odds.numerator <= g.odds.numerator)
  }

  /** A smaller fault is in force nowhere the larger one was not, and drops no more of what it draws for. */
  lemma WithinAppliesLess(f: Fault, g: Fault, sender: u64, receiver: u64, at: u64)
    requires Within(f, g)
    ensures Applies(f, sender, receiver, at) ==> Applies(g, sender, receiver, at)
    ensures f.sender == g.sender && f.receiver == g.receiver && (f.Partition? <==> g.Partition?)
    ensures f.during.start <= at && (at < f.during.end || f.during.end == END_OF_TIME) ==>
              g.during.start <= at && (at < g.during.end || g.during.end == END_OF_TIME)
    ensures f.Loss? && g.Loss? ==> f.odds.numerator * g.odds.denominator <= g.odds.numerator * f.odds.denominator
  {
    if f.Loss? {
      LessOfAll(f.odds.numerator, g.odds.numerator, f.odds.denominator);
    }
  }

  lemma LessOfAll(a: nat, b: nat, c: nat)
    requires a <= b
    ensures a * c <= b * c
  {}

  predicate FirstAt(faults: seq<Fault>, sender: u64, receiver: u64, at: u64, i: int) {
    && 0 <= i < |faults| && Applies(faults[i], sender, receiver, at)
    && forall j :: 0 <= j < i ==> !Applies(faults[j], sender, receiver, at)
  }

  /** The fault in force on a direction at an instant: the first that applies, where several would. */
  function FirstApplying(faults: seq<Fault>, sender: u64, receiver: u64, at: u64): (first: Option<Fault>)
    ensures first.None? <==> forall i :: 0 <= i < |faults| ==> !Applies(faults[i], sender, receiver, at)
    ensures first.Some? ==> exists i :: FirstAt(faults, sender, receiver, at, i) && faults[i] == first.value
    ensures first.None? <==> forall f :: f in faults ==>
              f.sender != sender || f.receiver != receiver || at < f.during.start
              || (at >= f.during.end && f.during.end != END_OF_TIME)
    ensures first.Some? ==>
              && first.value.sender == sender && first.value.receiver == receiver && first.value.during.start <= at
              && (at < first.value.during.end || first.value.during.end == END_OF_TIME)
    ensures first.Some? ==>
              exists i | 0 <= i < |faults| && faults[i] == first.value :: forall f :: f in faults[..i] ==>
                (f.sender != sender || f.receiver != receiver || at < f.during.start
                 || (at >= f.during.end && f.during.end != END_OF_TIME))
  {
    if faults == [] then None
    else if Applies(faults[0], sender, receiver, at) then Some(faults[0])
    else
      var rest := FirstApplying(faults[1..], sender, receiver, at);
      assert forall i :: 0 < i < |faults| ==> faults[i] == faults[1..][i - 1];
      assert forall i :: FirstAt(faults[1..], sender, receiver, at, i) ==> FirstAt(faults, sender, receiver, at, i + 1);
      rest
  }
}
