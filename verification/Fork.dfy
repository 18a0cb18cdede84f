/** Running a seed again and drawing from another after an instant: the same run up to that instant, and
    the same run altogether when the seeds are one. */
module Fork {
  import opened Bytes
  import opened Clock
  import opened Wrappers

  /** What a system asks a generator for. */
  datatype Request = NextU64 | Range(low: u64, high: u64) | Chance(numerator: nat, denominator: nat)
                   | DurationIn(low: u64, high: u64)

  /** What stands at a place of a seed's stream, answering a request, and the place after it. */
  type Cipher = (u64, nat, Request) -> (u64, nat)

  /** A generator: its seed, and how much of its stream it has consumed. */
  datatype Rng = Rng(seed: u64, place: nat)

  function FromSeed(seed: u64): Rng {
    Rng(seed, 0)
  }

  function Answer(c: Cipher, r: Rng, request: Request): u64 {
    c(r.seed, r.place, request).0
  }

  function MovedOn(c: Cipher, r: Rng, request: Request): Rng {
    r.(place := c(r.seed, r.place, request).1)
  }

  /** The generator under another seed, as far along as before. */
  function Reseeded(r: Rng, seed: u64): Rng {
    r.(seed := seed)
  }

  datatype Fork = Fork(at: u64, seed: u64)

  datatype UnreachedStep = UnreachedStep(step: nat, steps: nat)

  /** The fork that draws from `seed` after a step of a trace, its steps given by when they happened. */
  function NewFork(trace: seq<u64>, step: nat, seed: u64): (r: Result<Fork, UnreachedStep>)
    ensures r.Ok? <==> step < |trace|
    ensures r.Ok? ==> r.value.at == trace[step] && r.value.seed == seed
  {
    if step < |trace| then Ok(Fork(trace[step], seed)) else Err(UnreachedStep(step, |trace|))
  }

  // ---------------------------------------------------------------------------------------------
  // A generator that changes key

  /** `after` is the seed to change to, until it has. */
  datatype Forked = Forked(at: u64, rng: Rng, after: Option<u64>)

  /** The generator to draw from at `now`: another seed's once that is past the instant. */
  function Turned(f: Forked, now: u64): Forked {
    if f.after.Some? && now > f.at then f.(rng := Reseeded(f.rng, f.after.value), after := None) else f
  }

  class ForkedRng {
    const clock: VirtualClock
    const cipher: Cipher
    const at: u64
    var rng: Rng
    var after: Option<u64>

    function State(): Forked
      reads this
    {
      Forked(at, rng, after)
    }

    /** The seed to change to is the next the fork's own generator hands out. */
    constructor (clock: VirtualClock, cipher: Cipher, fork: Fork, before: Rng, seed: u64)
      ensures this.clock == clock && this.cipher == cipher
      ensures State() == Forked(fork.at, before, Some(seed))
    {
      this.clock, this.cipher, this.at, this.rng, this.after := clock, cipher, fork.at, before, Some(seed);
    }

    method Drawing()
      modifies this
      ensures State() == Turned(old(State()), clock.now)
    {
      if after.Some? && clock.now > at {
        rng := Reseeded(rng, after.value);
        after := None;
      }
    }

    method Draw(request: Request) returns (value: u64)
      modifies this
      ensures var turned := Turned(old(State()), clock.now);
              && value == Answer(cipher, turned.rng, request)
              && State() == turned.(rng := MovedOn(cipher, turned.rng, request))
    {
      Drawing();
      value := Answer(cipher, rng, request);
      rng := MovedOn(cipher, rng, request);
    }
  }

  // ---------------------------------------------------------------------------------------------
  // Runs

  /** One draw a run makes: when, from which of its generators, and for what. */
  datatype Ask = Ask(at: u64, which: nat, request: Request)

  /** A run decides what to draw next from what it has drawn, and everything else it does with it. */
  type Program = seq<u64> -> Option<Ask>

  /** The first `count` seeds a generator of `seed` hands out. */
  function SeedsOf(c: Cipher, seed: u64, count: nat): (seeds: seq<u64>)
    ensures |seeds| == count
  {
    HandedOut(c, FromSeed(seed), count)
  }

  function HandedOut(c: Cipher, start: Rng, count: nat): (seeds: seq<u64>)
    ensures |seeds| == count
    decreases count
  {
    if count == 0 then []
    else [Answer(c, start, NextU64)] + HandedOut(c, MovedOn(c, start, NextU64), count - 1)
  }

  datatype Run<G> = Run(history: seq<u64>, generators: seq<G>)

  /** A run of `seed` with `count` generators, after its first `n` draws. */
  function Plain(p: Program, c: Cipher, seed: u64, count: nat, n: nat): (r: Run<Rng>)
    ensures |r.generators| == count
  {
    if n == 0 then
      var seeds := SeedsOf(c, seed, count);
      Run([], seq(count, k requires 0 <= k < count => FromSeed(seeds[k])))
    else
      var before := Plain(p, c, seed, count, n - 1);
      match p(before.history)
      case None => before
      case Some(ask) =>
        if ask.which >= count then before
        else
          var g := before.generators[ask.which];
          Run(before.history + [Answer(c, g, ask.request)],
              before.generators[ask.which := MovedOn(c, g, ask.request)])
  }

  /** The forked counterpart of `Plain`: generator `k` holds, to change to, the `k`th seed the fork's own generator
      hands out. */
  function Parted(p: Program, c: Cipher, seed: u64, fork: Fork, count: nat, n: nat): (r: Run<Forked>)
    ensures |r.generators| == count
  {
    if n == 0 then
      var seeds, others := SeedsOf(c, seed, count), SeedsOf(c, fork.seed, count);
      Run([], seq(count, k requires 0 <= k < count => Forked(fork.at, FromSeed(seeds[k]), Some(others[k]))))
    else
      var before := Parted(p, c, seed, fork, count, n - 1);
      match p(before.history)
      case None => before
      case Some(ask) =>
        if ask.which >= count then before
        else
          var g := Turned(before.generators[ask.which], ask.at);
          Run(before.history + [Answer(c, g.rng, ask.request)],
              before.generators[ask.which := g.(rng := MovedOn(c, g.rng, ask.request))])
  }

  /** No draw among the first `n` comes after the instant. */
  ghost predicate UpTo(p: Program, c: Cipher, seed: u64, count: nat, at: u64, n: nat) {
    forall k :: 0 <= k < n ==>
      var ask := p(Plain(p, c, seed, count, k).history);
      ask.Some? ==> ask.value.at <= at
  }

  /** Up to the instant a fork names, the forked run is the run itself: everything it drew is the same,
      and so is where each of its generators stands. A draw at the instant is still the run's own. */
  lemma {:induction false} SameUpToFork(p: Program, c: Cipher, seed: u64, fork: Fork, count: nat, n: nat)
    requires UpTo(p, c, seed, count, fork.at, n)
    ensures var plain, parted := Plain(p, c, seed, count, n), Parted(p, c, seed, fork, count, n);
            && parted.history == plain.history
            && forall k :: 0 <= k < count ==>
                 parted.generators[k].rng == plain.generators[k] && parted.generators[k].after.Some?
                 && parted.generators[k].at == fork.at
  {
    if n > 0 {
      SameUpToFork(p, c, seed, fork, count, n - 1);
    }
  }

  /** Forking to the seed already in use changes no draw, before the instant or after it. */
  lemma {:induction false} ForkToOwnSeed(p: Program, c: Cipher, seed: u64, at: u64, count: nat, n: nat)
    ensures Parted(p, c, seed, Fork(at, seed), count, n).history == Plain(p, c, seed, count, n).history
    ensures var plain, parted := Plain(p, c, seed, count, n), Parted(p, c, seed, Fork(at, seed), count, n);
            forall k :: 0 <= k < count ==>
              && parted.generators[k].rng == plain.generators[k]
              && plain.generators[k].seed == SeedsOf(c, seed, count)[k]
              && (parted.generators[k].after.Some? ==> parted.generators[k].after.value == SeedsOf(c, seed, count)[k])
  {
    if n > 0 {
      ForkToOwnSeed(p, c, seed, at, count, n - 1);
    }
  }

  /** Whose seed each generator of a forked run draws from: the fork's once it has drawn past the
      instant, and the run's until then. */
  lemma {:induction false} SeedsInForce(p: Program, c: Cipher, seed: u64, fork: Fork, count: nat, n: nat)
    ensures forall k :: 0 <= k < count ==>
              var g := Parted(p, c, seed, fork, count, n).generators[k];
              && g.at == fork.at
              && (match g.after
                  case Some(other) =>
                    other == SeedsOf(c, fork.seed, count)[k] && g.rng.seed == SeedsOf(c, seed, count)[k]
                  case None => g.rng.seed == SeedsOf(c, fork.seed, count)[k])
  {
    if n > 0 {
      SeedsInForce(p, c, seed, fork, count, n - 1);
    }
  }

  /** Every draw past the instant is the fork's seed's, from the place the generator had reached. */
  lemma PastTheFork(p: Program, c: Cipher, seed: u64, fork: Fork, count: nat, n: nat, ask: Ask)
    requires p(Parted(p, c, seed, fork, count, n).history) == Some(ask) && ask.which < count && ask.at > fork.at
    ensures var before := Parted(p, c, seed, fork, count, n);
            Parted(p, c, seed, fork, count, n + 1).history
            == before.history + [Answer(c, Rng(SeedsOf(c, fork.seed, count)[ask.which],
                                               before.generators[ask.which].rng.place), ask.request)]
  {
    SeedsInForce(p, c, seed, fork, count, n);
  }
}
