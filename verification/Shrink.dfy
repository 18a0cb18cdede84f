/** The reduction itself: three searches that change one kept schedule, repeated to a fixed point. */
module Shrink {
  import opened Order
  import opened Bytes
  import opened Faults
  import opened Outcomes
  import opened ShrinkSpec
  import opened Wrappers

  /** What every search leaves: the schedule it was given, or a strictly lower one that it reduces to. */
  ghost predicate Onward(now: seq<Fault>, before: seq<Fault>) {
    Reduces(now, before) && (now == before || Lower(now, before))
  }

  lemma OnwardTrans(a: seq<Fault>, b: seq<Fault>, c: seq<Fault>)
    requires Onward(a, b) && Onward(b, c)
    ensures Onward(a, c)
    ensures a == c ==> a == b
  {
    ReducesTrans(a, b, c);
  }

  lemma OnwardRefl(a: seq<Fault>)
    ensures Onward(a, a)
  {
    ReducesRefl(a);
  }

  lemma LowerAgain(a: seq<Fault>, b: seq<Fault>, c: seq<Fault>)
    requires Reduces(a, b) && Lower(a, b) && Onward(b, c)
    ensures Onward(a, c) && Lower(a, c)
  {
    ReducesTrans(a, b, c);
  }

  lemma LowerDiffers(a: seq<Fault>, b: seq<Fault>)
    requires Lower(a, b)
    ensures a != b
  {}

  class Reducing<!E> {
    const run: Run<E>
    const failure: Outcome
    var kept: seq<Fault>
    var outcome: Outcome

    /** The outcome is that of the schedule beside it, and it is the failure being reduced. */
    ghost predicate Valid()
      reads this
    {
      run(kept) == Ok(outcome) && failure.Fail? && outcome.Fail? && outcome.reason == failure.reason
    }

    constructor (run: Run<E>, failure: Outcome, faults: seq<Fault>)
      requires run(faults) == Ok(failure) && failure.Fail?
      ensures Valid() && this.run == run && this.failure == failure && kept == faults && outcome == failure
    {
      this.run, this.failure, this.kept, this.outcome := run, failure, faults, failure;
    }

    /** `candidate` takes the place of what is kept exactly when its run breaks for the same reason, whatever the step. */
    method Keeps(candidate: seq<Fault>) returns (r: Result<bool, E>)
      requires Valid()
      modifies this
      ensures Valid()
      ensures r.Err? <==> run(candidate).Err?
      ensures r.Err? ==> run(candidate) == Err(r.error)
      ensures r == Ok(true) <==>
                run(candidate).Ok? && run(candidate).value.Fail? && run(candidate).value.reason == failure.reason
      ensures r == Ok(false) <==> Refuses(run, failure, candidate)
      ensures kept == if r == Ok(true) then candidate else old(kept)
    {
      var ran := run(candidate);
      if ran.Err? {
        return Err(ran.error);
      }
      if !Reproduces(ran.value, failure) {
        return Ok(false);
      }
      kept, outcome := candidate, ran.value;
      return Ok(true);
    }

    /** Offers each piece of the list for removal, until one goes. */
    method DropOne(spans: seq<Span>) returns (r: Result<bool, E>)
      requires Valid() && forall s :: s in spans ==> s.0 < s.1 <= |kept|
      modifies this
      ensures Valid() && Onward(kept, old(kept))
      ensures r.Err? ==> exists c :: run(c) == Err(r.error)
      ensures r == Ok(true) ==> |kept| < |old(kept)|
      ensures r != Ok(true) ==> kept == old(kept)
      ensures r == Ok(false) <==> forall s :: s in spans ==> Refuses(run, failure, Without(old(kept), s))
    {
      OnwardRefl(kept);
      var i := 0;
      while i < |spans|
        invariant 0 <= i <= |spans| && Valid() && kept == old(kept)
        invariant forall s :: s in spans[..i] ==> Refuses(run, failure, Without(kept, s))
      {
        TakeMore(spans, i);
        WithoutReduces(kept, spans[i]);
        var taken := Keeps(Without(kept, spans[i]));
        if taken != Ok(false) {
          return taken;
        }
        i := i + 1;
      }
      TakeAll(spans);
      return Ok(false);
    }

    /** Comes to a reduction of the list, and leaves it alone exactly when no cut the search tries can lose a piece. */
    method DropEntries() returns (error: Option<E>)
      requires Valid()
      modifies this
      ensures Valid() && Onward(kept, old(kept))
      ensures error.Some? ==> exists c :: run(c) == Err(error.value)
      ensures NoDrop(run, failure, old(kept)) ==> error.None? && kept == old(kept)
      ensures error.None? && kept == old(kept) ==> NoDrop(run, failure, kept)
    {
      hide Refuses;
      OnwardRefl(kept);
      if kept != [] {
        var empty := Keeps([]);
        if empty.Err? {
          return Some(empty.error);
        }
        if empty.value {
          assert Embeds([], old(kept), []);
          return None;
        }
      }
      var chunks := 2;
      while |kept| > 1
        invariant Valid() && Onward(kept, old(kept)) && chunks >= 2
        invariant kept != [] ==> old(kept) != []
        invariant old(kept) != [] ==> Refuses(run, failure, [])
        invariant |old(kept)| <= 1 ==> kept == old(kept)
        invariant NoDrop(run, failure, old(kept)) ==> kept == old(kept)
        invariant kept == old(kept) && |kept| > 1 && DropStuck(run, failure, kept, chunks) ==>
                    DropStuck(run, failure, kept, 2)
        invariant NoDrop(run, failure, old(kept)) && |kept| > 1 ==> DropStuck(run, failure, kept, chunks)
        decreases |kept|, |kept| - chunks
      {
        ghost var asked := chunks;
        ghost var before := kept;
        chunks := if chunks < |kept| then chunks else |kept|;
        FinestSame(run, failure, kept, asked);
        var taken := DropOne(Spans(|kept|, Size(|kept|, chunks), 0));
        OnwardTrans(kept, before, old(kept));
        if taken.Err? {
          return Some(taken.error);
        }
        if taken.value {
          chunks := if chunks - 1 > 2 then chunks - 1 else 2;
          continue;
        }
        if chunks >= |kept| {
          break;
        }
        chunks := Twice(chunks, |kept|);
      }
      return None;
    }

    /** A bisection on one window's end: nothing changes exactly when every end it would try is refused. */
    method NarrowEnd(index: nat) returns (error: Option<E>)
      requires Valid() && index < |kept|
      modifies this
      ensures Valid() && Onward(kept, old(kept)) && |kept| == |old(kept)|
      ensures error.Some? ==> exists c :: run(c) == Err(error.value)
      ensures error.None? ==>
                (kept == old(kept)
                 <==> EndStuck(run, failure, old(kept), index, old(kept)[index].during.start, old(kept)[index].during.end))
      ensures EndStuck(run, failure, old(kept), index, old(kept)[index].during.start, old(kept)[index].during.end) ==>
                error.None?
      ensures error.None? ==> EndIsIn(run, failure.reason, old(kept), kept, index)
    {
      hide Refuses, EndStuck, Lower, Reduces, Embeds, Narrowed, Lowered, Otherwise;
      OnwardRefl(kept);
      ghost var first, moved := kept, false;
      var during := kept[index].during;
      var low, high := during.start, during.end;
      while low < high
        invariant during.start <= low <= high <= during.end
        invariant Valid() && Onward(kept, first) && |kept| == |first|
        invariant kept == WithWindow(first, index, during.start, high)
        invariant during.start < low ==> Otherwise(run, failure.reason, WithWindow(first, index, during.start, low - 1))
        invariant if moved then Lower(kept, first) else kept == first && high == during.end
        invariant EndStuck(run, failure, first, index, during.start, during.end)
                  <==> !moved && EndStuck(run, failure, first, index, low, high)
        decreases high - low
      {
        EndStuckStep(run, failure, first, index, low, high);
        MovesLand(kept, index);
        var mid := low + (high - low) / 2;
        ghost var before := kept;
        NarrowedLower(kept, index, during.start, mid);
        var taken := Keeps(Narrowed(kept, index, during.start, mid));
        if taken.Err? {
          return Some(taken.error);
        }
        if taken.value {
          LowerAgain(kept, before, first);
          moved := true;
          high := mid;
        } else {
          LastWindow(first, index, during.start, high, during.start, mid);
          RefusedGoesOtherwise(run, failure, WithWindow(kept, index, during.start, mid));
          low := mid + 1;
        }
      }
      EndStuckStep(run, failure, first, index, low, high);
      if moved { LowerDiffers(kept, first); }
      return None;
    }

    /** A bisection on one window's start: nothing changes exactly when every start it would try is refused. */
    method NarrowStart(index: nat) returns (error: Option<E>)
      requires Valid() && index < |kept|
      modifies this
      ensures Valid() && Onward(kept, old(kept)) && |kept| == |old(kept)|
      ensures error.Some? ==> exists c :: run(c) == Err(error.value)
      ensures error.None? ==>
                (kept == old(kept)
                 <==> StartStuck(run, failure, old(kept), index, old(kept)[index].during.start, old(kept)[index].during.end))
      ensures StartStuck(run, failure, old(kept), index, old(kept)[index].during.start, old(kept)[index].during.end) ==>
                error.None?
      ensures error.None? ==> StartIsUp(run, failure.reason, old(kept), kept, index)
    {
      hide Refuses, StartStuck, Lower, Reduces, Embeds, Narrowed, Lowered, Otherwise;
      OnwardRefl(kept);
      ghost var first, moved := kept, false;
      var during := kept[index].during;
      var low, high := during.start, during.end;
      while low < high
        invariant during.start <= low <= high <= during.end
        invariant Valid() && Onward(kept, first) && |kept| == |first|
        invariant kept == WithWindow(first, index, low, during.end)
        invariant high < during.end ==> Otherwise(run, failure.reason, WithWindow(first, index, high + 1, during.end))
        invariant if moved then Lower(kept, first) else kept == first && low == during.start
        invariant StartStuck(run, failure, first, index, during.start, during.end)
                  <==> !moved && StartStuck(run, failure, first, index, low, high)
        decreases high - low
      {
        StartStuckStep(run, failure, first, index, low, high);
        MovesLand(kept, index);
        var mid := low + (high - low + 1) / 2;
        ghost var before := kept;
        NarrowedLower(kept, index, mid, during.end);
        var taken := Keeps(Narrowed(kept, index, mid, during.end));
        if taken.Err? {
          return Some(taken.error);
        }
        if taken.value {
          LowerAgain(kept, before, first);
          moved := true;
          low := mid;
        } else {
          LastWindow(first, index, low, during.end, mid, during.end);
          RefusedGoesOtherwise(run, failure, WithWindow(kept, index, mid, during.end));
          high := mid - 1;
        }
      }
      StartStuckStep(run, failure, first, index, low, high);
      if moved { LowerDiffers(kept, first); }
      return None;
    }

    /** Both bisections on each window in turn: nothing changes exactly when none can change any. */
    method NarrowWindows() returns (error: Option<E>)
      requires Valid()
      modifies this
      ensures Valid() && Onward(kept, old(kept))
      ensures error.Some? ==> exists c :: run(c) == Err(error.value)
      ensures error.None? ==>
                (kept == old(kept)
                 <==> forall i :: 0 <= i < |old(kept)| ==> NoNarrowing(run, failure, old(kept), i))
      ensures (forall i :: 0 <= i < |old(kept)| ==> NoNarrowing(run, failure, old(kept), i)) ==> error.None?
    {
      hide Refuses, EndStuck, StartStuck, Lower, Reduces, Embeds;
      OnwardRefl(kept);
      ghost var first := kept;
      var index := 0;
      while index < |kept|
        invariant 0 <= index <= |kept| == |first|
        invariant Valid() && Onward(kept, first)
        invariant kept == first <==> forall i :: 0 <= i < index ==> NoNarrowing(run, failure, first, i)
      {
        error := NarrowOne(index, first);
        if error.Some? {
          return;
        }
        index := index + 1;
      }
      return None;
    }

    method NarrowOne(index: nat, ghost first: seq<Fault>) returns (error: Option<E>)
      requires Valid() && Onward(kept, first) && index < |kept| == |first|
      modifies this
      ensures Valid() && Onward(kept, first) && |kept| == |first|
      ensures error.Some? ==> exists c :: run(c) == Err(error.value)
      ensures error.None? ==> (kept == first <==> old(kept) == first && NoNarrowing(run, failure, first, index))
      ensures old(kept) == first && NoNarrowing(run, failure, first, index) ==> error.None?
    {
      hide Refuses, EndStuck, StartStuck, Lower, Reduces, Embeds, EndIsIn, StartIsUp;
      error := NarrowEnd(index);
      OnwardTrans(kept, old(kept), first);
      if error.Some? {
        return;
      }
      ghost var between := kept;
      error := NarrowStart(index);
      OnwardTrans(kept, between, first);
    }

    /** A bisection on one numerator: nothing changes exactly when every numerator it would try is refused. */
    method LowerOne(index: nat) returns (error: Option<E>)
      requires Valid() && index < |kept|
      modifies this
      ensures Valid() && Onward(kept, old(kept)) && |kept| == |old(kept)|
      ensures error.Some? ==> exists c :: run(c) == Err(error.value)
      ensures error.None? ==> (kept == old(kept) <==> NoLowering(run, failure, old(kept), index))
      ensures NoLowering(run, failure, old(kept), index) ==> error.None?
      ensures error.None? && old(kept)[index].Loss? ==> OddsAreDown(run, failure.reason, old(kept), kept, index)
    {
      hide Refuses, OddsStuck, Lower, Reduces, Embeds, Narrowed, Lowered, Otherwise;
      OnwardRefl(kept);
      ghost var first, moved := kept, false;
      if !kept[index].Loss? {
        return None;
      }
      var low, high := 0, kept[index].odds.numerator;
      ghost var most := high;
      while low < high
        invariant 0 <= low <= high <= most
        invariant Valid() && Onward(kept, first) && |kept| == |first|
        invariant first[index].Loss? && most == first[index].odds.numerator && kept == WithNumerator(first, index, high)
        invariant 0 < low ==> Otherwise(run, failure.reason, WithNumerator(first, index, low - 1))
        invariant if moved then Lower(kept, first) else kept == first && high == most
        invariant OddsStuck(run, failure, first, index, 0, most)
                  <==> !moved && OddsStuck(run, failure, first, index, low, high)
        decreases high - low
      {
        OddsStuckStep(run, failure, first, index, low, high);
        MovesLand(kept, index);
        var mid := low + (high - low) / 2;
        ghost var before := kept;
        LoweredLower(kept, index, mid);
        var taken := Keeps(Lowered(kept, index, mid));
        if taken.Err? {
          return Some(taken.error);
        }
        if taken.value {
          LowerAgain(kept, before, first);
          moved := true;
          high := mid;
        } else {
          LastNumerator(first, index, high, mid);
          RefusedGoesOtherwise(run, failure, WithNumerator(kept, index, mid));
          low := mid + 1;
        }
      }
      OddsStuckStep(run, failure, first, index, low, high);
      if moved { LowerDiffers(kept, first); }
      return None;
    }

    method LowerOdds() returns (error: Option<E>)
      requires Valid()
      modifies this
      ensures Valid() && Onward(kept, old(kept))
      ensures error.Some? ==> exists c :: run(c) == Err(error.value)
      ensures error.None? ==>
                (kept == old(kept)
                 <==> forall i :: 0 <= i < |old(kept)| ==> NoLowering(run, failure, old(kept), i))
      ensures (forall i :: 0 <= i < |old(kept)| ==> NoLowering(run, failure, old(kept), i)) ==> error.None?
    {
      hide Refuses, NoLowering, OddsAreDown, Onward;
      OnwardRefl(kept);
      var index := 0;
      while index < |kept|
        invariant 0 <= index <= |kept| == |old(kept)|
        invariant Valid() && Onward(kept, old(kept))
        invariant kept == old(kept) <==> forall i :: 0 <= i < index ==> NoLowering(run, failure, old(kept), i)
      {
        ghost var before := kept;
        error := LowerOne(index);
        OnwardTrans(kept, before, old(kept));
        if error.Some? {
          return;
        }
        index := index + 1;
      }
      return None;
    }
  }

  /** Asking for more pieces than there are entries asks for one each. */
  lemma FinestSame<E>(run: Run<E>, failure: Outcome, kept: seq<Fault>, chunks: nat)
    requires chunks > 0 && |kept| > 1
    ensures DropStuck(run, failure, kept, chunks)
            <==> DropStuck(run, failure, kept, if chunks < |kept| then chunks else |kept|)
  {
    if chunks >= |kept| {
      assert Size(|kept|, chunks) == 1 && Size(|kept|, |kept|) == 1;
    }
  }

  datatype Reduction = Reduction(schedule: seq<Fault>, outcome: Outcome)

  /** What a reduction of `faults` may come to: a schedule that reduces them, run, breaking for the same reason,
      with nothing smaller in reach that does. */
  ghost predicate Reduced<E>(run: Run<E>, faults: seq<Fault>, r: Reduction) {
    && run(faults).Ok? && run(faults).value.Fail?
    && run(r.schedule) == Ok(r.outcome) && r.outcome.Fail? && r.outcome.reason == run(faults).value.reason
    && Reduces(r.schedule, faults)
    && Stuck(run, run(faults).value, r.schedule)
    && LocallyMinimal(run, run(faults).value.reason, r.schedule)
  }

  /** Ends with a reduction of `faults` that is run, fails alike and is locally minimal; with nothing exactly when
      `faults` pass; or with an error that came of some run. */
  method Shrink<E>(faults: seq<Fault>, run: Run<E>) returns (r: Result<Option<Reduction>, E>)
    ensures r.Err? ==> exists c :: run(c) == Err(r.error)
    ensures r == Ok(None) <==> run(faults) == Ok(Pass)
    ensures r.Ok? && r.value.Some? ==> Reduced(run, faults, r.value.value)
    ensures run(faults).Ok? && run(faults).value.Fail? && Stuck(run, run(faults).value, faults) ==>
              r == Ok(Some(Reduction(faults, run(faults).value)))
  {
    hide Refuses, NoDrop, NoNarrowing, NoLowering, LocallyMinimal, Reduces, Embeds, Spanned, Chances;
    var first := run(faults);
    if first.Err? {
      return Err(first.error);
    }
    if first.value == Pass {
      return Ok(None);
    }
    var reducing := new Reducing<E>(run, first.value, faults);
    OnwardRefl(faults);
    var error: Option<E>;
    while true
      invariant reducing.Valid() && Onward(reducing.kept, faults)
      invariant reducing.run == run && reducing.failure == first.value
      invariant Stuck(run, first.value, faults) ==> reducing.kept == faults
      decreases |reducing.kept|, Spanned(reducing.kept), Chances(reducing.kept)
    {
      var before := reducing.kept;
      error := reducing.DropEntries();
      if error.Some? {
        return Err(error.value);
      }
      ghost var dropped := reducing.kept;
      OnwardTrans(dropped, before, faults);
      error := reducing.NarrowWindows();
      if error.Some? {
        return Err(error.value);
      }
      ghost var narrowed := reducing.kept;
      OnwardTrans(narrowed, dropped, before);
      OnwardTrans(narrowed, before, faults);
      error := reducing.LowerOdds();
      if error.Some? {
        return Err(error.value);
      }
      OnwardTrans(reducing.kept, narrowed, before);
      OnwardTrans(reducing.kept, before, faults);
      if reducing.kept == before {
        break;
      }
    }
    StuckIsMinimal(run, first.value, reducing.kept);
    return Ok(Some(Reduction(reducing.kept, reducing.outcome)));
  }

  /** Shrinking what shrinking left changes nothing more: not the schedule, not the outcome. */
  method ShrinkAgain<E>(faults: seq<Fault>, run: Run<E>)
    returns (once: Result<Option<Reduction>, E>, again: Result<Option<Reduction>, E>)
    ensures once.Ok? && once.value.Some? ==> again == once && Reduced(run, faults, once.value.value)
    ensures once.Err? || once.value.None? ==> again == once
  {
    hide Stuck, LocallyMinimal, Reduces;
    once := Shrink(faults, run);
    if once.Err? || once.value.None? {
      return once, once;
    }
    var kept := once.value.value;
    StuckSameFailure(run, run(faults).value, kept.outcome, kept.schedule);
    again := Shrink(kept.schedule, run);
  }
}
