/** What a reduction may try, what it ends by, and what it means that nothing it tries is taken. */
module ShrinkSpec {
  import opened Bytes
  import opened Faults
  import opened Outcomes
  import opened Wrappers

  /** The run under reduction, its seed closed over: how it goes under each schedule, or why it could
      not be run at all. Nothing is asked of it, monotone least of all. */
  type Run<!E> = seq<Fault> -> Result<Outcome, E>

  /** `candidate` was run, and did not fail the way that is being reduced. */
  predicate Refuses<E>(run: Run<E>, failure: Outcome, candidate: seq<Fault>) {
    run(candidate).Ok? && !Reproduces(run(candidate).value, failure)
  }

  // ---------------------------------------------------------------------------------------------
  // The moves

  function Narrowed(kept: seq<Fault>, index: nat, start: u64, end: u64): (r: seq<Fault>)
    requires index < |kept|
    ensures |r| == |kept|
  {
    kept[index := kept[index].(during := NarrowedTo(kept[index].during, start, end))]
  }

  function Lowered(kept: seq<Fault>, index: nat, numerator: u32): (r: seq<Fault>)
    requires index < |kept| && kept[index].Loss?
    ensures |r| == |kept|
  {
    kept[index := kept[index].(odds := LoweredTo(kept[index].odds, numerator))]
  }

  /** A run of places in a list, from the first up to the second. */
  type Span = (nat, nat)

  function Without(kept: seq<Fault>, span: Span): (r: seq<Fault>)
    requires span.0 <= span.1 <= |kept|
    ensures |r| == |kept| - (span.1 - span.0)
  {
    kept[..span.0] + kept[span.1..]
  }

  function Size(len: nat, chunks: nat): (size: nat)
    requires chunks > 0
    ensures size >= 1
    ensures chunks >= len ==> size == 1
  {
    if len == 0 then 1 else (len + chunks - 1) / chunks
  }

  /** `len` places in pieces of `size`, the last one short when they do not divide. */
  function Spans(len: nat, size: nat, start: nat): (spans: seq<Span>)
    requires size > 0
    ensures forall s :: s in spans ==> start <= s.0 < s.1 <= len && s.1 <= s.0 + size
    decreases len - start
  {
    if start >= len then []
    else
      var end := if start + size < len then start + size else len;
      [(start, end)] + Spans(len, size, start + size)
  }

  /** Every place is in one of the pieces. */
  lemma {:induction false} SpansCover(len: nat, size: nat, start: nat, i: nat) returns (s: Span)
    requires size > 0 && start <= i < len
    ensures s in Spans(len, size, start) && s.0 <= i < s.1
    decreases len - start
  {
    if i < start + size {
      s := Spans(len, size, start)[0];
    } else {
      s := SpansCover(len, size, start + size, i);
    }
  }

  /** One piece ends where the next begins, and is as long as pieces are. */
  predicate MeetsNext(spans: seq<Span>, size: nat, i: nat)
    requires i + 1 < |spans|
  {
    spans[i].1 == spans[i + 1].0 && spans[i].1 == spans[i].0 + size
  }

  /** The pieces lie end to end, from the first place to the last, all of one size but for a short last one. */
  lemma {:induction false} SpansEndToEnd(len: nat, size: nat, start: nat)
    requires size > 0 && start < len
    ensures var spans := Spans(len, size, start);
            && spans != [] && spans[0].0 == start && spans[|spans| - 1].1 == len
            && (forall i: nat :: i + 1 < |spans| ==> MeetsNext(spans, size, i))
    decreases len - start
  {
    if start + size < len {
      SpansEndToEnd(len, size, start + size);
      OneMore((start, start + size), Spans(len, size, start + size), size);
    } else {
      assert Spans(len, size, start) == [(start, len)];
    }
  }

  lemma OneMore(span: Span, rest: seq<Span>, size: nat)
    requires rest != [] && span.1 == rest[0].0 && span.1 == span.0 + size
    requires forall i: nat :: i + 1 < |rest| ==> MeetsNext(rest, size, i)
    ensures forall i: nat :: i < |rest| ==> MeetsNext([span] + rest, size, i)
  {
    forall i: nat | i < |rest| ensures MeetsNext([span] + rest, size, i) {
      if i > 0 { assert MeetsNext(rest, size, i - 1); }
    }
  }

  lemma {:induction false} SpansFill(len: nat, size: nat, start: nat)
    requires size > 0 && start < len
    ensures var n := |Spans(len, size, start)|; n > 0 && (n - 1) * size < len - start <= n * size
    decreases len - start
  {
    if start + size < len {
      SpansFill(len, size, start + size);
      OneMoreOf(|Spans(len, size, start + size)|, size);
      assert |Spans(len, size, start)| == 1 + |Spans(len, size, start + size)|;
    } else {
      assert |Spans(len, size, start)| == 1;
    }
  }

  lemma OneMoreOf(n: nat, size: nat)
    requires n > 0
    ensures (n + 1) * size == n * size + size && n * size == (n - 1) * size + size
  {}

  /** A list cut into so many pieces has no more of them than that, and two when two are asked for. */
  lemma SpansCount(len: nat, chunks: nat)
    requires 0 < chunks && 0 < len
    ensures 1 <= |Spans(len, Size(len, chunks), 0)| <= chunks
    ensures len >= 2 && chunks == 2 ==> |Spans(len, Size(len, chunks), 0)| == 2
    ensures chunks >= len ==> |Spans(len, Size(len, chunks), 0)| == len
  {
    var size := Size(len, chunks);
    var n := |Spans(len, size, 0)|;
    SpansFill(len, size, 0);
    Covers(len, chunks, size);
    if n > chunks {
      NoMore(n - 1, chunks, size);
    }
  }

  lemma Covers(len: nat, chunks: nat, size: nat)
    requires 0 < chunks && 0 < len && size == (len + chunks - 1) / chunks
    ensures len <= chunks * size
  {}

  lemma NoMore(a: nat, b: nat, size: nat)
    requires a >= b
    ensures a * size >= b * size
  {}

  // ---------------------------------------------------------------------------------------------
  // What a reduction may come to, and what every move lowers

  function Spanned(kept: seq<Fault>): nat {
    if kept == [] then 0
    else Spanned(kept[..|kept| - 1]) + kept[|kept| - 1].during.end - kept[|kept| - 1].during.start
  }

  function Chances(kept: seq<Fault>): nat {
    if kept == [] then 0 else Chances(kept[..|kept| - 1]) + Numerator(kept[|kept| - 1])
  }

  /** Fewer entries; or as many, spanning less; or as many spanning as much, with fewer occurrences. */
  predicate Lower(a: seq<Fault>, b: seq<Fault>) {
    || |a| < |b|
    || (|a| == |b| && Spanned(a) < Spanned(b))
    || (|a| == |b| && Spanned(a) == Spanned(b) && Chances(a) < Chances(b))
  }

  lemma {:induction false} Replace(kept: seq<Fault>, index: nat, f: Fault)
    requires index < |kept|
    ensures Spanned(kept[index := f]) - (f.during.end - f.during.start)
            == Spanned(kept) - (kept[index].during.end - kept[index].during.start)
    ensures Chances(kept[index := f]) - Numerator(f) == Chances(kept) - Numerator(kept[index])
  {
    var n := |kept| - 1;
    if index == n {
      assert kept[index := f][..n] == kept[..n];
    } else {
      Replace(kept[..n], index, f);
      assert kept[index := f][..n] == kept[..n][index := f];
    }
  }

  /** Each entry of `small` is one of `big` made smaller, in the order they were there. */
  predicate Embeds(small: seq<Fault>, big: seq<Fault>, places: seq<nat>) {
    && |places| == |small|
    && (forall i, j :: 0 <= i < j < |places| ==> places[i] < places[j])
    && (forall i :: 0 <= i < |small| ==> places[i] < |big| && Within(small[i], big[places[i]]))
  }

  ghost predicate Reduces(small: seq<Fault>, big: seq<Fault>) {
    exists places :: Embeds(small, big, places)
  }

  /** Which is to say: nothing is left, or what is left first is some entry made smaller, and the rest a reduction of what
      came after that one. */
  lemma ReducesIff(small: seq<Fault>, big: seq<Fault>)
    ensures Reduces(small, big)
            <==> small == [] || exists k: nat :: k < |big| && Within(small[0], big[k]) && Reduces(small[1..], big[k + 1..])
  {
    hide Within, Embeds;
    if small == [] {
      assert Embeds(small, big, []) by { NoPlaces(big); }
    } else {
      if places :| Embeds(small, big, places) {
        EmbedsRest(small, big, places);
      }
      if k: nat :| k < |big| && Within(small[0], big[k]) && Reduces(small[1..], big[k + 1..]) {
        var rest :| Embeds(small[1..], big[k + 1..], rest);
        EmbedsMore(small, big, k, rest);
      }
    }
  }

  lemma NoPlaces(big: seq<Fault>)
    ensures Embeds([], big, [])
  {}

  lemma EmbedsRest(small: seq<Fault>, big: seq<Fault>, places: seq<nat>)
    requires small != [] && Embeds(small, big, places)
    ensures |places| == |small| && places[0] < |big| && Within(small[0], big[places[0]])
    ensures Reduces(small[1..], big[places[0] + 1..])
  {
    hide Within;
    var k := places[0];
    var rest := seq(|small| - 1, i requires 0 <= i < |small| - 1 && places[0] < places[i + 1] => places[i + 1] - k - 1);
    assert forall i :: 0 <= i < |rest| ==> small[1..][i] == small[i + 1] && big[k + 1..][rest[i]] == big[places[i + 1]];
    assert Embeds(small[1..], big[k + 1..], rest);
  }

  lemma EmbedsMore(small: seq<Fault>, big: seq<Fault>, k: nat, rest: seq<nat>)
    requires small != [] && k < |big| && Within(small[0], big[k]) && Embeds(small[1..], big[k + 1..], rest)
    ensures Reduces(small, big)
  {
    hide Within;
    var places := seq(|small|, i requires 0 <= i < |small| => if i == 0 then k else rest[i - 1] + k + 1);
    forall i | 0 < i < |small| ensures places[i] < |big| && Within(small[i], big[places[i]]) {
      assert Within(small[1..][i - 1], big[k + 1..][rest[i - 1]]);
    }
    assert Embeds(small, big, places);
  }

  lemma ReducesRefl(kept: seq<Fault>)
    ensures Reduces(kept, kept)
  {
    assert Embeds(kept, kept, seq(|kept|, i requires 0 <= i < |kept| => i));
  }

  lemma ReducesTrans(a: seq<Fault>, b: seq<Fault>, c: seq<Fault>)
    requires Reduces(a, b) && Reduces(b, c)
    ensures Reduces(a, c)
  {
    var f :| Embeds(a, b, f);
    var g :| Embeds(b, c, g);
    assert Embeds(a, c, seq(|f|, i requires 0 <= i < |f| => g[f[i]]));
  }

  lemma WithoutReduces(kept: seq<Fault>, span: Span)
    requires span.0 < span.1 <= |kept|
    ensures Reduces(Without(kept, span), kept) && Lower(Without(kept, span), kept)
  {
    var n := |Without(kept, span)|;
    assert Embeds(Without(kept, span), kept, seq(n, i requires 0 <= i < n => if i < span.0 then i else i + span.1 - span.0));
  }

  lemma ReplaceReduces(kept: seq<Fault>, index: nat, f: Fault)
    requires index < |kept| && Within(f, kept[index])
    ensures Reduces(kept[index := f], kept)
  {
    assert Embeds(kept[index := f], kept, seq(|kept|, i requires 0 <= i < |kept| => i));
  }

  lemma NarrowedLower(kept: seq<Fault>, index: nat, start: u64, end: u64)
    requires index < |kept|
    requires var w := kept[index].during; w.start <= start <= end <= w.end && w != Window(start, end)
    ensures var r := Narrowed(kept, index, start, end);
            Reduces(r, kept) && Lower(r, kept) && r[index].during == Window(start, end)
  {
    var f := kept[index].(during := NarrowedTo(kept[index].during, start, end));
    Replace(kept, index, f);
    ReplaceReduces(kept, index, f);
  }

  lemma LoweredLower(kept: seq<Fault>, index: nat, numerator: u32)
    requires index < |kept| && kept[index].Loss? && numerator < kept[index].odds.numerator
    ensures var r := Lowered(kept, index, numerator);
            Reduces(r, kept) && Lower(r, kept) && r[index].Loss? && r[index].odds.numerator == numerator
  {
    var f := kept[index].(odds := LoweredTo(kept[index].odds, numerator));
    Replace(kept, index, f);
    ReplaceReduces(kept, index, f);
  }

  // ---------------------------------------------------------------------------------------------
  // A schedule no move takes anywhere: each of these is every candidate one search offers when all
  // of them are refused

  ghost predicate DropStuck<E>(run: Run<E>, failure: Outcome, kept: seq<Fault>, chunks: nat)
    requires chunks > 0
    decreases |kept| - chunks
  {
    && (forall s :: s in Spans(|kept|, Size(|kept|, chunks), 0) ==> Refuses(run, failure, Without(kept, s)))
    && (chunks < |kept| ==> DropStuck(run, failure, kept, Twice(chunks, |kept|)))
  }

  /** Twice as many pieces, or one to each entry if that is fewer. */
  function Twice(chunks: nat, len: nat): (more: nat)
    ensures more <= 2 * chunks && more <= len && (more < len ==> more == chunks + chunks)
  {
    if 2 * chunks < len then 2 * chunks else len
  }

  predicate EndStuck<E>(run: Run<E>, failure: Outcome, kept: seq<Fault>, index: nat, low: u64, high: u64)
    requires index < |kept|
    decreases high - low
  {
    low < high ==>
      var mid := low + (high - low) / 2;
      && Refuses(run, failure, Narrowed(kept, index, kept[index].during.start, mid))
      && EndStuck(run, failure, kept, index, mid + 1, high)
  }

  predicate StartStuck<E>(run: Run<E>, failure: Outcome, kept: seq<Fault>, index: nat, low: u64, high: u64)
    requires index < |kept|
    decreases high - low
  {
    low < high ==>
      var mid := low + (high - low + 1) / 2;
      && Refuses(run, failure, Narrowed(kept, index, mid, kept[index].during.end))
      && StartStuck(run, failure, kept, index, low, mid - 1)
  }

  predicate OddsStuck<E>(run: Run<E>, failure: Outcome, kept: seq<Fault>, index: nat, low: u32, high: u32)
    requires index < |kept| && kept[index].Loss?
    decreases high - low
  {
    low < high ==>
      var mid := low + (high - low) / 2;
      && Refuses(run, failure, Lowered(kept, index, mid))
      && OddsStuck(run, failure, kept, index, mid + 1, high)
  }

  ghost predicate NoDrop<E>(run: Run<E>, failure: Outcome, kept: seq<Fault>) {
    && (kept != [] ==> Refuses(run, failure, []))
    && (|kept| > 1 ==> DropStuck(run, failure, kept, 2))
  }

  predicate NoNarrowing<E>(run: Run<E>, failure: Outcome, kept: seq<Fault>, index: nat)
    requires index < |kept|
  {
    var w := kept[index].during;
    EndStuck(run, failure, kept, index, w.start, w.end) && StartStuck(run, failure, kept, index, w.start, w.end)
  }

  predicate NoLowering<E>(run: Run<E>, failure: Outcome, kept: seq<Fault>, index: nat)
    requires index < |kept|
  {
    kept[index].Loss? ==> OddsStuck(run, failure, kept, index, 0, kept[index].odds.numerator)
  }

  /** Every candidate a whole pass over `kept` offers is refused. */
  ghost predicate Stuck<E>(run: Run<E>, failure: Outcome, kept: seq<Fault>) {
    && NoDrop(run, failure, kept)
    && (forall i :: 0 <= i < |kept| ==> NoNarrowing(run, failure, kept, i))
    && (forall i :: 0 <= i < |kept| ==> NoLowering(run, failure, kept, i))
  }

  // ---------------------------------------------------------------------------------------------
  // What being stuck means: a local minimum

  lemma {:induction false} DropStuckOne<E>(run: Run<E>, failure: Outcome, kept: seq<Fault>, chunks: nat, i: nat)
    requires chunks > 0 && i < |kept| && DropStuck(run, failure, kept, chunks)
    ensures Refuses(run, failure, OneGone(kept, i))
    decreases |kept| - chunks
  {
    if chunks < |kept| {
      DropStuckOne(run, failure, kept, Twice(chunks, |kept|), i);
    } else {
      var s := SpansCover(|kept|, 1, 0, i);
      assert s == (i, i + 1) && Without(kept, s) == OneGone(kept, i);
    }
  }

  lemma EndStuckStep<E>(run: Run<E>, failure: Outcome, kept: seq<Fault>, index: nat, low: u64, high: u64)
    requires index < |kept|
    ensures low >= high ==> EndStuck(run, failure, kept, index, low, high)
    ensures low < high ==>
              var mid := low + (high - low) / 2;
              EndStuck(run, failure, kept, index, low, high)
              <==> Refuses(run, failure, Narrowed(kept, index, kept[index].during.start, mid)) && EndStuck(run, failure, kept, index, mid + 1, high)
  {}

  lemma {:induction false} EndStuckLast<E>(run: Run<E>, failure: Outcome, kept: seq<Fault>, index: nat, low: u64, high: u64)
    requires index < |kept| && low < high && EndStuck(run, failure, kept, index, low, high)
    ensures Refuses(run, failure, Narrowed(kept, index, kept[index].during.start, high - 1))
    decreases high - low
  {
    var mid := low + (high - low) / 2;
    if mid + 1 < high { EndStuckLast(run, failure, kept, index, mid + 1, high); }
  }

  lemma StartStuckStep<E>(run: Run<E>, failure: Outcome, kept: seq<Fault>, index: nat, low: u64, high: u64)
    requires index < |kept|
    ensures low >= high ==> StartStuck(run, failure, kept, index, low, high)
    ensures low < high ==>
              var mid := low + (high - low + 1) / 2;
              StartStuck(run, failure, kept, index, low, high)
              <==> Refuses(run, failure, Narrowed(kept, index, mid, kept[index].during.end)) && StartStuck(run, failure, kept, index, low, mid - 1)
  {}

  lemma {:induction false} StartStuckLast<E>(run: Run<E>, failure: Outcome, kept: seq<Fault>, index: nat, low: u64, high: u64)
    requires index < |kept| && low < high && StartStuck(run, failure, kept, index, low, high)
    ensures Refuses(run, failure, Narrowed(kept, index, low + 1, kept[index].during.end))
    decreases high - low
  {
    var mid := low + (high - low + 1) / 2;
    if low < mid - 1 { StartStuckLast(run, failure, kept, index, low, mid - 1); }
  }

  lemma OddsStuckStep<E>(run: Run<E>, failure: Outcome, kept: seq<Fault>, index: nat, low: u32, high: u32)
    requires index < |kept| && kept[index].Loss?
    ensures low >= high ==> OddsStuck(run, failure, kept, index, low, high)
    ensures low < high ==>
              var mid := low + (high - low) / 2;
              OddsStuck(run, failure, kept, index, low, high)
              <==> Refuses(run, failure, Lowered(kept, index, mid)) && OddsStuck(run, failure, kept, index, mid + 1, high)
  {}

  lemma {:induction false} OddsStuckLast<E>(run: Run<E>, failure: Outcome, kept: seq<Fault>, index: nat, low: u32, high: u32)
    requires index < |kept| && kept[index].Loss? && low < high && OddsStuck(run, failure, kept, index, low, high)
    ensures Refuses(run, failure, Lowered(kept, index, high - 1))
    decreases high - low
  {
    var mid := low + (high - low) / 2;
    if mid + 1 < high { OddsStuckLast(run, failure, kept, index, mid + 1, high); }
  }

  /** `kept` with one window, or one numerator, as given and nothing else changed. */
  function WithWindow(kept: seq<Fault>, index: nat, start: u64, end: u64): seq<Fault>
    requires index < |kept| && start <= end
  {
    kept[index := kept[index].(during := Window(start, end))]
  }

  function WithNumerator(kept: seq<Fault>, index: nat, numerator: u32): seq<Fault>
    requires index < |kept| && kept[index].Loss? && numerator <= kept[index].odds.numerator
  {
    kept[index := kept[index].(odds := Odds(numerator, kept[index].odds.denominator))]
  }

  /** A move inside the window it narrows, or below the numerator it lowers, lands where it was asked to. */
  lemma MovesLand(kept: seq<Fault>, index: nat)
    requires index < |kept|
    ensures var w := kept[index].during;
            forall start: u64, end: u64 :: w.start <= start <= end <= w.end ==>
              Narrowed(kept, index, start, end) == WithWindow(kept, index, start, end)
    ensures kept[index].Loss? ==>
              forall n: u32 :: n <= kept[index].odds.numerator ==> Lowered(kept, index, n) == WithNumerator(kept, index, n)
  {}

  /** A window's end can come in no further: one nanosecond more and the run goes otherwise. */
  ghost predicate EndIsIn<E>(run: Run<E>, reason: Reason, before: seq<Fault>, kept: seq<Fault>, index: nat)
    requires index < |before|
  {
    var w := before[index].during;
    exists end: u64 ::
      && w.start <= end <= w.end && kept == WithWindow(before, index, w.start, end)
      && (w.start < end ==> Otherwise(run, reason, WithWindow(before, index, w.start, end - 1)))
  }

  ghost predicate StartIsUp<E>(run: Run<E>, reason: Reason, before: seq<Fault>, kept: seq<Fault>, index: nat)
    requires index < |before|
  {
    var w := before[index].during;
    exists start: u64 ::
      && w.start <= start <= w.end && kept == WithWindow(before, index, start, w.end)
      && (start < w.end ==> Otherwise(run, reason, WithWindow(before, index, start + 1, w.end)))
  }

  ghost predicate OddsAreDown<E>(run: Run<E>, reason: Reason, before: seq<Fault>, kept: seq<Fault>, index: nat)
    requires index < |before| && before[index].Loss?
  {
    exists n: u32 ::
      && n <= before[index].odds.numerator && kept == WithNumerator(before, index, n)
      && (0 < n ==> Otherwise(run, reason, WithNumerator(before, index, n - 1)))
  }

  lemma LastWindow(before: seq<Fault>, index: nat, a: u64, b: u64, start: u64, end: u64)
    requires index < |before| && a <= b && start <= end
    ensures WithWindow(WithWindow(before, index, a, b), index, start, end) == WithWindow(before, index, start, end)
  {}

  lemma LastNumerator(before: seq<Fault>, index: nat, m: u32, n: u32)
    requires index < |before| && before[index].Loss? && n <= m <= before[index].odds.numerator
    ensures WithNumerator(WithNumerator(before, index, m), index, n) == WithNumerator(before, index, n)
  {}

  function OneGone(kept: seq<Fault>, index: nat): seq<Fault>
    requires index < |kept|
  {
    kept[..index] + kept[index + 1..]
  }

  /** `kept` with the fault at `index` one nanosecond or one occurrence smaller. */
  function EndIn(kept: seq<Fault>, index: nat): seq<Fault>
    requires index < |kept| && kept[index].during.start < kept[index].during.end
  {
    kept[index := kept[index].(during := Window(kept[index].during.start, kept[index].during.end - 1))]
  }

  function StartUp(kept: seq<Fault>, index: nat): seq<Fault>
    requires index < |kept| && kept[index].during.start < kept[index].during.end
  {
    kept[index := kept[index].(during := Window(kept[index].during.start + 1, kept[index].during.end))]
  }

  function OneFewer(kept: seq<Fault>, index: nat): seq<Fault>
    requires index < |kept| && kept[index].Loss? && kept[index].odds.numerator > 0
  {
    kept[index := kept[index].(odds := Odds(kept[index].odds.numerator - 1, kept[index].odds.denominator))]
  }

  /** A schedule runs, and either holds up or breaks for some other reason. */
  predicate Otherwise<E>(run: Run<E>, reason: Reason, candidate: seq<Fault>) {
    && run(candidate).Ok?
    && match run(candidate).value
       case Pass => true
       case Fail(other, _) => other != reason
  }

  /** To be refused is to go otherwise. */
  lemma RefusedGoesOtherwise<E>(run: Run<E>, failure: Outcome, candidate: seq<Fault>)
    requires failure.Fail?
    ensures Refuses(run, failure, candidate) <==> Otherwise(run, failure.reason, candidate)
  {}

  /** Nothing one step smaller still breaks for that reason: not with every fault gone, not with any one of
      them gone, not with an end in or a start up by a nanosecond, not with one occurrence fewer. */
  ghost predicate LocallyMinimal<E>(run: Run<E>, reason: Reason, kept: seq<Fault>) {
    && (kept != [] ==> Otherwise(run, reason, []))
    && (forall i :: 0 <= i < |kept| ==> Otherwise(run, reason, OneGone(kept, i)))
    && (forall i :: 0 <= i < |kept| && kept[i].during.start < kept[i].during.end ==>
          Otherwise(run, reason, EndIn(kept, i)) && Otherwise(run, reason, StartUp(kept, i)))
    && (forall i :: 0 <= i < |kept| && kept[i].Loss? && kept[i].odds.numerator > 0 ==>
          Otherwise(run, reason, OneFewer(kept, i)))
  }

  lemma NoDropMeans<E>(run: Run<E>, failure: Outcome, kept: seq<Fault>, i: nat)
    requires NoDrop(run, failure, kept) && i < |kept|
    ensures Refuses(run, failure, OneGone(kept, i))
  {
    if |kept| > 1 {
      DropStuckOne(run, failure, kept, 2, i);
    } else {
      assert OneGone(kept, i) == [];
    }
  }

  lemma NoNarrowingMeans<E>(run: Run<E>, failure: Outcome, kept: seq<Fault>, i: nat)
    requires i < |kept| && NoNarrowing(run, failure, kept, i) && kept[i].during.start < kept[i].during.end
    ensures Refuses(run, failure, EndIn(kept, i)) && Refuses(run, failure, StartUp(kept, i))
  {
    EndStuckLast(run, failure, kept, i, kept[i].during.start, kept[i].during.end);
    StartStuckLast(run, failure, kept, i, kept[i].during.start, kept[i].during.end);
  }

  lemma NoLoweringMeans<E>(run: Run<E>, failure: Outcome, kept: seq<Fault>, i: nat)
    requires i < |kept| && NoLowering(run, failure, kept, i) && kept[i].Loss? && kept[i].odds.numerator > 0
    ensures Refuses(run, failure, OneFewer(kept, i))
  {
    OddsStuckLast(run, failure, kept, i, 0, kept[i].odds.numerator);
  }

  lemma StuckIsMinimal<E>(run: Run<E>, failure: Outcome, kept: seq<Fault>)
    requires failure.Fail? && Stuck(run, failure, kept)
    ensures LocallyMinimal(run, failure.reason, kept)
  {
    hide Refuses, NoNarrowing, NoLowering, OneGone, EndIn, StartUp, OneFewer, Otherwise;
    RefusedGoesOtherwise(run, failure, []);
    forall i | 0 <= i < |kept| ensures Otherwise(run, failure.reason, OneGone(kept, i)) {
      NoDropMeans(run, failure, kept, i);
      RefusedGoesOtherwise(run, failure, OneGone(kept, i));
    }
    forall i | 0 <= i < |kept| && kept[i].during.start < kept[i].during.end
      ensures Otherwise(run, failure.reason, EndIn(kept, i)) && Otherwise(run, failure.reason, StartUp(kept, i))
    {
      NoNarrowingMeans(run, failure, kept, i);
      RefusedGoesOtherwise(run, failure, EndIn(kept, i));
      RefusedGoesOtherwise(run, failure, StartUp(kept, i));
    }
    forall i | 0 <= i < |kept| && kept[i].Loss? && kept[i].odds.numerator > 0
      ensures Otherwise(run, failure.reason, OneFewer(kept, i))
    {
      NoLoweringMeans(run, failure, kept, i);
      RefusedGoesOtherwise(run, failure, OneFewer(kept, i));
    }
  }

  // ---------------------------------------------------------------------------------------------
  // A failure is the same failure to every search, whatever step it surfaced at

  predicate SameReason(a: Outcome, b: Outcome) {
    a.Fail? && b.Fail? && a.reason == b.reason
  }

  lemma {:induction false} DropStuckSame<E>(run: Run<E>, a: Outcome, b: Outcome, kept: seq<Fault>, chunks: nat)
    requires SameReason(b, a) && chunks > 0 && DropStuck(run, a, kept, chunks)
    ensures DropStuck(run, b, kept, chunks)
    decreases |kept| - chunks
  {
    if chunks < |kept| { DropStuckSame(run, a, b, kept, Twice(chunks, |kept|)); }
  }

  lemma {:induction false} EndStuckSame<E>(run: Run<E>, a: Outcome, b: Outcome, kept: seq<Fault>, index: nat, low: u64, high: u64)
    requires SameReason(b, a) && index < |kept| && EndStuck(run, a, kept, index, low, high)
    ensures EndStuck(run, b, kept, index, low, high)
    decreases high - low
  {
    if low < high { EndStuckSame(run, a, b, kept, index, low + (high - low) / 2 + 1, high); }
  }

  lemma {:induction false} StartStuckSame<E>(run: Run<E>, a: Outcome, b: Outcome, kept: seq<Fault>, index: nat, low: u64, high: u64)
    requires SameReason(b, a) && index < |kept| && StartStuck(run, a, kept, index, low, high)
    ensures StartStuck(run, b, kept, index, low, high)
    decreases high - low
  {
    if low < high { StartStuckSame(run, a, b, kept, index, low, low + (high - low + 1) / 2 - 1); }
  }

  lemma {:induction false} OddsStuckSame<E>(run: Run<E>, a: Outcome, b: Outcome, kept: seq<Fault>, index: nat, low: u32, high: u32)
    requires SameReason(b, a) && index < |kept| && kept[index].Loss? && OddsStuck(run, a, kept, index, low, high)
    ensures OddsStuck(run, b, kept, index, low, high)
    decreases high - low
  {
    if low < high { OddsStuckSame(run, a, b, kept, index, low + (high - low) / 2 + 1, high); }
  }

  lemma NoNarrowingSame<E>(run: Run<E>, a: Outcome, b: Outcome, kept: seq<Fault>, index: nat)
    requires SameReason(b, a) && index < |kept| && NoNarrowing(run, a, kept, index)
    ensures NoNarrowing(run, b, kept, index)
  {
    var w := kept[index].during;
    EndStuckSame(run, a, b, kept, index, w.start, w.end);
    StartStuckSame(run, a, b, kept, index, w.start, w.end);
  }

  lemma StuckSameFailure<E>(run: Run<E>, a: Outcome, b: Outcome, kept: seq<Fault>)
    requires SameReason(b, a) && Stuck(run, a, kept)
    ensures Stuck(run, b, kept)
  {
    hide DropStuck, EndStuck, StartStuck, OddsStuck, NoNarrowing;
    if |kept| > 1 { DropStuckSame(run, a, b, kept, 2); }
    forall i | 0 <= i < |kept| ensures NoNarrowing(run, b, kept, i) && NoLowering(run, b, kept, i) {
      assert NoNarrowing(run, a, kept, i) && NoLowering(run, a, kept, i);
      NoNarrowingSame(run, a, b, kept, i);
      if kept[i].Loss? { OddsStuckSame(run, a, b, kept, i, 0, kept[i].odds.numerator); }
    }
  }
}
