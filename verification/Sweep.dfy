/** Running many seeds across workers: each takes a stride of its own, and the answer is the one a single
    pass over the seeds would give, whatever the number of workers and whichever finishes first. */
module Sweep {
  import opened Order
  import opened Outcomes
  import opened Wrappers

  /** What a run under one seed comes to, or why it could not be finished. */
  type Run<!E> = nat -> Result<Outcome, E>

  const SEEDS_END := 0x1_0000_0000_0000_0000

  /** A worker's end: the failures it found, the seed its run gave an error for, or a next seed too large to be one. */
  datatype Worked<E> = Found(broke: seq<Broke>) | Stopped(seed: nat, error: E) | Overflowed

  /** Whether `seed` is one of a worker's: its own number, or a whole number of strides on from it. */
  predicate Mine(seed: nat, worker: nat, workers: nat)
    requires workers > 0
  {
    if seed < workers then seed == worker else Mine(seed - workers, worker, workers)
  }

  ghost predicate SeedsAscend(broke: seq<Broke>) {
    forall i, j :: 0 <= i < j < |broke| ==> broke[i].seed < broke[j].seed
  }

  /** What a seed below `seeds` whose run failed contributes. */
  predicate Breaks<E>(run: Run<E>, b: Broke) {
    run(b.seed) == Ok(b.outcome)
  }

  /** A worker's answer over the seeds of its share below `end`. */
  ghost predicate Exactly<E>(run: Run<E>, end: nat, worker: nat, workers: nat, broke: seq<Broke>)
    requires workers > 0
  {
    && (forall s :: 0 <= s < end && Mine(s, worker, workers) ==> run(s).Ok?)
    && (forall b: Broke :: b in broke <==> b.seed < end && Mine(b.seed, worker, workers) && Breaks(run, b))
    && SeedsAscend(broke)
  }

  ghost predicate Answers<E>(run: Run<E>, seeds: nat, worker: nat, workers: nat, worked: Worked<E>)
    requires workers > 0
  {
    match worked
    case Found(broke) => Exactly(run, seeds, worker, workers, broke)
    case Stopped(seed, error) =>
      && seed < seeds && Mine(seed, worker, workers) && run(seed) == Err(error)
      && forall s :: 0 <= s < seed && Mine(s, worker, workers) ==> run(s).Ok?
    case Overflowed => seeds - 1 + workers >= SEEDS_END
                       && forall s :: 0 <= s < seeds && Mine(s, worker, workers) ==> run(s).Ok?
  }

  /** The next of a worker's seeds is one whole stride on: there is none between. */
  lemma {:induction false} NextOfMine(seed: nat, worker: nat, workers: nat, s: nat)
    requires 0 < workers && Mine(seed, worker, workers) && seed < s < seed + workers
    ensures !Mine(s, worker, workers)
  {
    if seed >= workers { NextOfMine(seed - workers, worker, workers, s - workers); }
  }

  /** Every seed is one worker's, and no other's. */
  lemma {:induction false} OneWorker(seed: nat, workers: nat) returns (worker: nat)
    requires workers > 0
    ensures worker < workers && Mine(seed, worker, workers)
    ensures forall other :: Mine(seed, other, workers) ==> other == worker
  {
    if seed < workers { worker := seed; } else { worker := OneWorker(seed - workers, workers); }
  }

  lemma NoneBetween(seed: nat, worker: nat, workers: nat)
    requires 0 < workers && Mine(seed, worker, workers)
    ensures forall s :: seed < s < seed + workers ==> !Mine(s, worker, workers)
  {
    forall s: nat | seed < s < seed + workers ensures !Mine(s, worker, workers) {
      NextOfMine(seed, worker, workers, s);
    }
  }

  /** One seed run, and every seed up to the next of the worker's is settled. */
  lemma OneMoreSeed<E>(run: Run<E>, seed: nat, worker: nat, workers: nat, broke: seq<Broke>)
    requires 0 < workers && Mine(seed, worker, workers) && Exactly(run, seed, worker, workers, broke) && run(seed).Ok?
    ensures Exactly(run, seed + workers, worker, workers,
                    if run(seed).value.Fail? then broke + [Broke(seed, run(seed).value)] else broke)
    ensures forall s :: seed < s < seed + workers ==> !Mine(s, worker, workers)
  {
    NoneBetween(seed, worker, workers);
    if run(seed).value.Fail? {
      OneMoreBroke(run, seed, worker, workers, broke);
    } else {
      OneMorePassed(run, seed, worker, workers, broke);
    }
  }

  lemma OneMoreBroke<E>(run: Run<E>, seed: nat, worker: nat, workers: nat, broke: seq<Broke>)
    requires 0 < workers && Mine(seed, worker, workers) && Exactly(run, seed, worker, workers, broke) && run(seed).Ok?
    requires run(seed).value.Fail?
    requires forall s :: seed < s < seed + workers ==> !Mine(s, worker, workers)
    ensures Exactly(run, seed + workers, worker, workers, broke + [Broke(seed, run(seed).value)])
  {
    hide Mine, Breaks, SeedsAscend;
    var last: Broke := Broke(seed, run(seed).value);
    var more: seq<Broke> := broke + [last];
    forall b: Broke ensures b in more <==> b.seed < seed + workers && Mine(b.seed, worker, workers) && Breaks(run, b) {
      BrokeAt(run, seed, b);
      assert b in more <==> b == last || b in broke;
    }
    LastAscends(broke, last);
  }

  lemma OneMorePassed<E>(run: Run<E>, seed: nat, worker: nat, workers: nat, broke: seq<Broke>)
    requires 0 < workers && Mine(seed, worker, workers) && Exactly(run, seed, worker, workers, broke) && run(seed).Ok?
    requires !run(seed).value.Fail?
    requires forall s :: seed < s < seed + workers ==> !Mine(s, worker, workers)
    ensures Exactly(run, seed + workers, worker, workers, broke)
  {
    hide Mine, Breaks, SeedsAscend;
    forall b: Broke ensures b in broke <==> b.seed < seed + workers && Mine(b.seed, worker, workers) && Breaks(run, b) {
      BrokeAt(run, seed, b);
    }
  }

  lemma LastAscends(broke: seq<Broke>, last: Broke)
    requires SeedsAscend(broke) && forall b :: b in broke ==> b.seed < last.seed
    ensures SeedsAscend(broke + [last])
  {}

  lemma BrokeAt<E>(run: Run<E>, seed: nat, b: Broke)
    requires run(seed).Ok?
    ensures b.seed == seed && Breaks(run, b) <==> run(seed).value.Fail? && b == Broke(seed, run(seed).value)
  {}


  /** Every `workers`th seed from `worker`. */
  method Stride<E>(seeds: nat, worker: nat, workers: nat, run: Run<E>) returns (worked: Worked<E>)
    requires worker < workers <= seeds < SEEDS_END
    ensures Answers(run, seeds, worker, workers, worked)
    ensures worked.Overflowed? ==> forall s :: seeds <= s < SEEDS_END ==> !Mine(s, worker, workers)
    ensures worked.Found? ==> exists s :: seeds <= s < SEEDS_END && Mine(s, worker, workers)
  {
    var broke: seq<Broke> := [];
    var seed := worker;
    while seed < seeds
      invariant Mine(seed, worker, workers) && seed < SEEDS_END
      invariant Exactly(run, seed, worker, workers, broke)
      invariant forall s :: seeds <= s < seed ==> !Mine(s, worker, workers)
      decreases seeds - seed
    {
      var ran := run(seed);
      if ran.Err? {
        return Stopped(seed, ran.error);
      }
      OneMoreSeed(run, seed, worker, workers, broke);
      if ran.value.Fail? {
        broke := broke + [Broke(seed, ran.value)];
      }
      if seed + workers >= SEEDS_END {
        return Overflowed;
      }
      seed := seed + workers;
    }
    return Found(broke);
  }

  // ---------------------------------------------------------------------------------------------
  // The answer, and what a single pass over the seeds would say

  datatype Survey = Survey(swept: nat, broke: seq<Broke>)
  datatype Unfinished<E> = Unfinished(seed: nat, error: E)

  /** What a pass over the seeds one after another comes to: every failure in the order of its seed; or,
      when a seed cannot be finished, the lowest such and why. */
  ghost predicate Sequential<E>(run: Run<E>, seeds: nat, r: Result<Survey, Unfinished<E>>) {
    match r
    case Ok(survey) =>
      && survey.swept == seeds && SeedsAscend(survey.broke)
      && (forall s :: 0 <= s < seeds ==> run(s).Ok?)
      && (forall b: Broke :: b in survey.broke <==> b.seed < seeds && Breaks(run, b))
    case Err(Unfinished(seed, error)) =>
      seed < seeds && run(seed) == Err(error) && forall s :: 0 <= s < seed ==> run(s).Ok?
  }

  lemma {:induction false} AscendingSame(a: seq<Broke>, b: seq<Broke>)
    requires SeedsAscend(a) && SeedsAscend(b) && forall x :: x in a <==> x in b
    ensures a == b
    decreases |a|
  {
    assert (a != [] ==> a[0] in a) && (b != [] ==> b[0] in b);
    if a != [] && b != [] {
      var n, m := |a| - 1, |b| - 1;
      LastGreatest(a, b[m]);
      LastGreatest(b, a[n]);
      assert a[n] in a && b[m] in b;
      forall x ensures x in a[..n] <==> x in b[..m] {
        Without(a, x);
        Without(b, x);
      }
      AscendingSame(a[..n], b[..m]);
      assert a == a[..n] + [a[n]] && b == b[..m] + [b[m]];
    }
  }

  lemma LastGreatest(a: seq<Broke>, x: Broke)
    requires SeedsAscend(a) && a != []
    ensures x in a ==> x.seed <= a[|a| - 1].seed && (x.seed == a[|a| - 1].seed ==> x == a[|a| - 1])
  {}

  lemma Without(a: seq<Broke>, x: Broke)
    requires SeedsAscend(a) && a != []
    ensures x in a[..|a| - 1] <==> x in a && x != a[|a| - 1]
  {}

  /** There is one such answer. */
  lemma SequentialUnique<E>(run: Run<E>, seeds: nat, r: Result<Survey, Unfinished<E>>, q: Result<Survey, Unfinished<E>>)
    requires Sequential(run, seeds, r) && Sequential(run, seeds, q)
    ensures r == q
  {
    if r.Ok? && q.Ok? {
      AscendingSame(r.value.broke, q.value.broke);
    }
  }

  /** Puts `b` in its place by seed, in a list already in order. */
  method Insert(sorted: seq<Broke>, b: Broke) returns (longer: seq<Broke>)
    requires SeedsAscend(sorted) && forall x :: x in sorted ==> x.seed != b.seed
    ensures SeedsAscend(longer) && forall x :: x in longer <==> x in sorted || x == b
  {
    var i := |sorted|;
    while i > 0 && sorted[i - 1].seed > b.seed
      invariant 0 <= i <= |sorted| && forall k :: i <= k < |sorted| ==> sorted[k].seed > b.seed
    {
      i := i - 1;
    }
    longer := sorted[..i] + [b] + sorted[i..];
    assert i > 0 ==> sorted[i - 1] in sorted;
    forall k | 0 <= k < i ensures sorted[k].seed < b.seed {
      assert sorted[i - 1].seed < b.seed;
    }
  }

  /** Sorts by seed, no two entries being of one seed. */
  method SortBySeed(list: seq<Broke>) returns (sorted: seq<Broke>)
    requires forall i, j :: 0 <= i < j < |list| ==> list[i].seed != list[j].seed
    ensures SeedsAscend(sorted) && forall x :: x in sorted <==> x in list
  {
    sorted := [];
    var n := 0;
    while n < |list|
      invariant 0 <= n <= |list| && SeedsAscend(sorted)
      invariant forall x :: x in sorted <==> x in list[..n]
    {
      sorted := Insert(sorted, list[n]);
      TakeMore(list, n);
      n := n + 1;
    }
    TakeAll(list);
  }

  /** What the workers came back with, each worker once, in whatever order they were collected. */
  ghost predicate Collected<E>(run: Run<E>, seeds: nat, workers: nat, order: seq<nat>, collected: seq<Worked<E>>) {
    && workers > 0 && |order| == |collected|
    && (forall i :: 0 <= i < |order| ==> order[i] < workers && Answers(run, seeds, order[i], workers, collected[i]))
    && (forall i, j :: 0 <= i < j < |order| ==> order[i] != order[j])
    && (forall w :: 0 <= w < workers ==> w in order)
  }

  /** The seeds of the first `n` workers collected. */
  ghost predicate OfFirst(order: seq<nat>, n: nat, workers: nat, seed: nat)
    requires workers > 0 && n <= |order|
  {
    exists i :: 0 <= i < n && Mine(seed, order[i], workers)
  }

  /** The failures of the first `n` workers, when all of them finished. */
  ghost predicate MergedTo<E>(run: Run<E>, seeds: nat, workers: nat, order: seq<nat>, n: nat, broke: seq<Broke>)
    requires workers > 0 && n <= |order|
  {
    && (forall s :: 0 <= s < seeds && OfFirst(order, n, workers, s) ==> run(s).Ok?)
    && (forall b: Broke :: b in broke <==> b.seed < seeds && OfFirst(order, n, workers, b.seed) && Breaks(run, b))
    && (forall i, j :: 0 <= i < j < |broke| ==> broke[i].seed != broke[j].seed)
  }

  lemma OfOneMore(order: seq<nat>, n: nat, workers: nat, seed: nat)
    requires workers > 0 && n < |order|
    ensures OfFirst(order, n + 1, workers, seed) <==> OfFirst(order, n, workers, seed) || Mine(seed, order[n], workers)
  {}

  lemma OfOneOnly(order: seq<nat>, n: nat, workers: nat, seed: nat)
    requires workers > 0 && n < |order| && forall i, j :: 0 <= i < j < |order| ==> order[i] != order[j]
    ensures !(OfFirst(order, n, workers, seed) && Mine(seed, order[n], workers))
  {
    var worker := OneWorker(seed, workers);
  }

  lemma MergedMore<E>(run: Run<E>, seeds: nat, workers: nat, order: seq<nat>, n: nat, broke: seq<Broke>, found: seq<Broke>)
    requires workers > 0 && n < |order| && MergedTo(run, seeds, workers, order, n, broke)
    requires Exactly(run, seeds, order[n], workers, found)
    requires forall i, j :: 0 <= i < j < |order| ==> order[i] != order[j]
    ensures MergedTo(run, seeds, workers, order, n + 1, broke + found)
  {
    hide OfFirst, Mine, Breaks;
    forall s ensures OfFirst(order, n + 1, workers, s) <==> OfFirst(order, n, workers, s) || Mine(s, order[n], workers)
             ensures !(OfFirst(order, n, workers, s) && Mine(s, order[n], workers))
    {
      OfOneMore(order, n, workers, s);
      OfOneOnly(order, n, workers, s);
    }
    forall i, j | 0 <= i < j < |broke + found| ensures (broke + found)[i].seed != (broke + found)[j].seed {
      if i < |broke| <= j {
        assert broke[i] in broke && found[j - |broke|] in found;
      }
    }
  }

  lemma OfAll(order: seq<nat>, workers: nat, seed: nat)
    requires workers > 0 && forall w :: 0 <= w < workers ==> w in order
    ensures OfFirst(order, |order|, workers, seed)
  {
    var worker := OneWorker(seed, workers);
    assert worker in order;
    var i :| 0 <= i < |order| && order[i] == worker;
  }

  /** Merges what the workers came back with: the failures sorted by seed, or the lowest seed any of them
      could not finish. A worker that ran past the last seed there is takes the sweep down with it. */
  method Merge<E>(run: Run<E>, seeds: nat, ghost workers: nat, ghost order: seq<nat>, collected: seq<Worked<E>>)
    returns (r: Option<Result<Survey, Unfinished<E>>>)
    requires Collected(run, seeds, workers, order, collected)
    ensures r.Some? ==> Sequential(run, seeds, r.value)
    ensures r.None? <==> exists i :: 0 <= i < |collected| && collected[i].Overflowed?
  {
    hide Answers, Exactly, OfFirst, Breaks, Mine;
    var broke: seq<Broke> := [];
    var unfinished: Option<(nat, E)> := None;
    var n := 0;
    NothingMerged(run, seeds, workers, order);
    while n < |collected|
      invariant 0 <= n <= |collected|
      invariant forall i :: 0 <= i < n ==> !collected[i].Overflowed?
      invariant unfinished.None? ==> MergedTo(run, seeds, workers, order, n, broke)
      invariant unfinished.None? ==> forall i :: 0 <= i < n ==> collected[i].Found?
      invariant unfinished.Some? ==>
                  && (exists i :: 0 <= i < n && collected[i] == Stopped(unfinished.value.0, unfinished.value.1))
                  && (forall i :: 0 <= i < n && collected[i].Stopped? ==> unfinished.value.0 <= collected[i].seed)
    {
      match collected[n] {
        case Overflowed =>
          return None;
        case Found(found) =>
          if unfinished.None? {
            FoundExactly(run, seeds, order[n], workers, found);
            MergedMore(run, seeds, workers, order, n, broke, found);
          }
          broke := broke + found;
        case Stopped(seed, error) =>
          if unfinished.None? || seed < unfinished.value.0 {
            unfinished := Some((seed, error));
          }
      }
      n := n + 1;
    }
    if unfinished.Some? {
      LowestUnfinished(run, seeds, workers, order, collected, unfinished.value.0, unfinished.value.1);
      return Some(Err(Unfinished(unfinished.value.0, unfinished.value.1)));
    }
    var sorted := SortBySeed(broke);
    WholeMerge(run, seeds, workers, order, broke, sorted);
    return Some(Ok(Survey(seeds, sorted)));
  }

  lemma NothingMerged<E>(run: Run<E>, seeds: nat, workers: nat, order: seq<nat>)
    requires workers > 0
    ensures MergedTo(run, seeds, workers, order, 0, [])
  {}

  lemma FoundExactly<E>(run: Run<E>, seeds: nat, worker: nat, workers: nat, found: seq<Broke>)
    requires workers > 0 && Answers(run, seeds, worker, workers, Found(found))
    ensures Exactly(run, seeds, worker, workers, found)
  {}

  lemma WholeMerge<E>(run: Run<E>, seeds: nat, workers: nat, order: seq<nat>, broke: seq<Broke>, sorted: seq<Broke>)
    requires workers > 0 && MergedTo(run, seeds, workers, order, |order|, broke)
    requires forall w :: 0 <= w < workers ==> w in order
    requires SeedsAscend(sorted) && forall x :: x in sorted <==> x in broke
    ensures Sequential(run, seeds, Ok(Survey(seeds, sorted)))
  {
    hide OfFirst, Breaks;
    forall s: nat ensures OfFirst(order, |order|, workers, s) {
      OfAll(order, workers, s);
    }
  }

  /** The lowest seed any worker stopped at is the lowest there is: each ran everything of its own below
      the one it stopped at. */
  lemma LowestUnfinished<E>(run: Run<E>, seeds: nat, workers: nat, order: seq<nat>, collected: seq<Worked<E>>,
                            seed: nat, error: E)
    requires Collected(run, seeds, workers, order, collected)
    requires forall i :: 0 <= i < |collected| ==> !collected[i].Overflowed?
    requires exists i :: 0 <= i < |collected| && collected[i] == Stopped(seed, error)
    requires forall i :: 0 <= i < |collected| && collected[i].Stopped? ==> seed <= collected[i].seed
    ensures seed < seeds && run(seed) == Err(error) && forall s :: 0 <= s < seed ==> run(s).Ok?
  {
    hide Mine;
    var i :| 0 <= i < |collected| && collected[i] == Stopped(seed, error);
    assert Answers(run, seeds, order[i], workers, collected[i]);
    forall s | 0 <= s < seed ensures run(s).Ok? {
      var worker := OneWorker(s, workers);
      assert worker in order;
      var j :| 0 <= j < |order| && order[j] == worker;
      assert Answers(run, seeds, order[j], workers, collected[j]);
    }
  }

  /** Runs the seeds below `seeds` across `jobs` workers. Whatever the number of workers, the answer is
      the single pass's; and there is one whenever the last seed and a stride past it is still a seed. */
  method Sweep<E>(seeds: nat, jobs: nat, run: Run<E>) returns (r: Option<Result<Survey, Unfinished<E>>>)
    requires 0 < seeds < SEEDS_END && jobs > 0
    ensures r.Some? ==> Sequential(run, seeds, r.value)
    ensures r.None? ==> seeds - 1 + (if jobs < seeds then jobs else seeds) >= SEEDS_END
    ensures (forall s :: 0 <= s < seeds ==> run(s).Ok?) ==>
              (r.Some? <==> seeds - 1 + (if jobs < seeds then jobs else seeds) < SEEDS_END)
  {
    hide Exactly, Breaks;
    var workers := if jobs < seeds then jobs else seeds;
    var collected: seq<Worked<E>> := [];
    ghost var order: seq<nat> := [];
    while |collected| < workers
      invariant |order| == |collected| <= workers
      invariant forall i :: 0 <= i < |order| ==>
                  && order[i] == i && Answers(run, seeds, i, workers, collected[i])
                  && (collected[i].Found? ==> HasNext(seeds, i, workers))
      decreases workers - |collected|
    {
      var worked := Stride(seeds, |collected|, workers, run);
      order := order + [|collected|];
      collected := collected + [worked];
    }
    forall w | 0 <= w < workers ensures w in order {
      assert order[w] == w;
    }
    r := Merge(run, seeds, workers, order, collected);
    if seeds - 1 + workers >= SEEDS_END && forall s :: 0 <= s < seeds ==> run(s).Ok? {
      SomeoneOverflows(run, seeds, workers, collected);
    }
  }

  /** A worker's count can go on past the seeds swept. */
  ghost predicate HasNext(seeds: nat, worker: nat, workers: nat)
    requires workers > 0
  {
    exists s :: seeds <= s < SEEDS_END && Mine(s, worker, workers)
  }

  /** Where the last seed and a stride past it is no seed, whichever worker has the last seed cannot go
      on from it. */
  lemma SomeoneOverflows<E>(run: Run<E>, seeds: nat, workers: nat, collected: seq<Worked<E>>)
    requires 0 < workers <= seeds && |collected| == workers && seeds - 1 + workers >= SEEDS_END
    requires forall s :: 0 <= s < seeds ==> run(s).Ok?
    requires forall i :: 0 <= i < workers ==>
               Answers(run, seeds, i, workers, collected[i]) && (collected[i].Found? ==> HasNext(seeds, i, workers))
    ensures exists i :: 0 <= i < |collected| && collected[i].Overflowed?
  {
    hide Exactly;
    var worker := OneWorker(seeds - 1, workers);
    assert Answers(run, seeds, worker, workers, collected[worker]);
    if collected[worker].Found? {
      var s :| seeds <= s < SEEDS_END && Mine(s, worker, workers);
      NextOfMine(seeds - 1, worker, workers, s);
    }
  }

  /** The number of workers does not reach the answer. */
  method SweepTwice<E>(seeds: nat, jobs: nat, others: nat, run: Run<E>)
    returns (r: Option<Result<Survey, Unfinished<E>>>, q: Option<Result<Survey, Unfinished<E>>>)
    requires 0 < seeds < SEEDS_END && jobs > 0 && others > 0
    ensures r.Some? && q.Some? ==> r == q
  {
    r := Sweep(seeds, jobs, run);
    q := Sweep(seeds, others, run);
    if r.Some? && q.Some? {
      SequentialUnique(run, seeds, r.value, q.value);
    }
  }
}
