/** The wire: what the faults in force and the link's own odds make of a message, and in what order the wire
    draws to decide it. */
module Wire {
  import opened Bytes
  import opened Clock
  import opened Faults
  import opened Fork
  import opened Inboxes
  import opened Kernel
  import opened KernelSteady
  import opened Wrappers
  import E = Executor

  /** One direction of a link: how long it takes, and how likely it is to lose a message or say it twice. */
  datatype AnyLink = Link(least: u64, most: u64, loss: Odds, duplication: Odds)
  type Link = l: AnyLink | l.least <= l.most witness Link(0, 0, Odds(0, 1), Odds(0, 1))

  function Drawn(c: Cipher, r: Rng, odds: Odds): bool {
    Answer(c, r, Chance(odds.numerator, odds.denominator)) != 0
  }

  function OnFrom(c: Cipher, r: Rng, odds: Odds): Rng {
    MovedOn(c, r, Chance(odds.numerator, odds.denominator))
  }

  function Delay(c: Cipher, r: Rng, link: Link): u64 {
    Answer(c, r, DurationIn(link.least, link.most))
  }

  function AfterDelay(c: Cipher, r: Rng, link: Link): Rng {
    MovedOn(c, r, DurationIn(link.least, link.most))
  }

  /** The odds a message meets: the fault's while one is in force, and the link's own otherwise. */
  function OddsMet(link: Link, fault: Option<Fault>): Odds {
    if fault.Some? && fault.value.Loss? then fault.value.odds else link.loss
  }

  /** What becomes of a message, and the generator afterwards. */
  function Fate(c: Cipher, r: Rng, link: Link, fault: Option<Fault>, now: u64): (OnWire, Rng) {
    if fault.Some? && fault.value.Partition? then (Nothing, r)
    else
      var odds := OddsMet(link, fault);
      var a := OnFrom(c, r, odds);
      if Drawn(c, r, odds) then (Nothing, a)
      else
        var first, b := Later(now, Delay(c, a, link)), AfterDelay(c, a, link);
        var d := OnFrom(c, b, link.duplication);
        if Drawn(c, b, link.duplication) then (Twice(first, Later(now, Delay(c, d, link))), AfterDelay(c, d, link))
        else (Once(first), d)
  }

  /** A direction that is cut carries nothing and draws nothing. */
  lemma CutDrawsNothing(c: Cipher, r: Rng, link: Link, faults: seq<Fault>, sender: u64, receiver: u64, now: u64)
    requires exists i | 0 <= i < |faults| :: FirstAt(faults, sender, receiver, now, i) && faults[i].Partition?
    ensures Fate(c, r, link, FirstApplying(faults, sender, receiver, now), now) == (Nothing, r)
  {
    var first := FirstApplying(faults, sender, receiver, now);
    var i :| FirstAt(faults, sender, receiver, now, i) && faults[i] == first.value;
  }

  /** A fault that drops messages as often as the link would have anyway changes neither what becomes of any
      message nor what is drawn for it. */
  lemma HarmlessFault(c: Cipher, r: Rng, link: Link, fault: Fault, now: u64)
    requires fault.Loss? && fault.odds == link.loss
    ensures Fate(c, r, link, Some(fault), now) == Fate(c, r, link, None, now)
  {}

  /** Nor does a fault on another direction, or one whose window does not hold the instant, wherever it stands. */
  lemma ElsewhereHarmless(faults: seq<Fault>, i: nat, fault: Fault, sender: u64, receiver: u64, now: u64)
    requires i <= |faults|
    requires fault.sender != sender || fault.receiver != receiver || now < fault.during.start
             || (fault.during.end <= now && fault.during.end < END_OF_TIME)
    ensures FirstApplying(faults[..i] + [fault] + faults[i..], sender, receiver, now)
            == FirstApplying(faults, sender, receiver, now)
  {
    if i == 0 {
      assert ([] + [fault] + faults)[1..] == faults;
      assert faults[..0] + [fault] + faults[0..] == [fault] + faults && ([fault] + faults)[1..] == faults;
    } else {
      var longer := faults[..i] + [fault] + faults[i..];
      assert longer[0] == faults[0] && longer[1..] == faults[1..][..i - 1] + [fault] + faults[1..][i - 1..];
      ElsewhereHarmless(faults[1..], i - 1, fault, sender, receiver, now);
    }
  }

  /** Every message is drawn for in one order: whether it is lost; if not, how long it takes; whether it is said
      twice; and, if so, how long that takes. What lands is decided by those answers alone. */
  lemma DrawnInOrder(c: Cipher, r: Rng, link: Link, fault: Option<Fault>, now: u64)
    requires !(fault.Some? && fault.value.Partition?)
    ensures var odds := if fault.Some? then fault.value.odds else link.loss;
            var lost := c(r.seed, r.place, Chance(odds.numerator, odds.denominator));
            var delay := c(r.seed, lost.1, DurationIn(link.least, link.most));
            var twice := c(r.seed, delay.1, Chance(link.duplication.numerator, link.duplication.denominator));
            var again := c(r.seed, twice.1, DurationIn(link.least, link.most));
            Fate(c, r, link, fault, now)
            == if lost.0 != 0 then (Nothing, Rng(r.seed, lost.1))
               else if twice.0 == 0 then (Once(Later(now, delay.0)), Rng(r.seed, twice.1))
               else (Twice(Later(now, delay.0), Later(now, again.0)), Rng(r.seed, again.1))
  {}

  class Wire {
    const cipher: Cipher
    const defaultLink: Link
    var links: map<(u64, u64), Link>
    var faults: seq<Fault>
    var rng: Rng

    constructor (cipher: Cipher, defaultLink: Link, rng: Rng)
      ensures this.cipher == cipher && this.defaultLink == defaultLink && this.rng == rng
      ensures links == map[] && faults == []
      ensures forall sender, receiver :: LinkOf(sender, receiver) == defaultLink
    {
      this.cipher, this.defaultLink, this.rng, this.links, this.faults := cipher, defaultLink, rng, map[], [];
    }

    function LinkOf(sender: u64, receiver: u64): Link
      reads this
    {
      if (sender, receiver) in links then links[(sender, receiver)] else defaultLink
    }

    /** One direction gets a link of its own; every other keeps the one it had. */
    method SetLink(sender: u64, receiver: u64, link: Link)
      modifies this`links
      ensures LinkOf(sender, receiver) == link
      ensures forall from: u64, to: u64 :: (from, to) != (sender, receiver) ==> LinkOf(from, to) == old(LinkOf(from, to))
    {
      links := links[(sender, receiver) := link];
    }

    method SetFaults(faults: seq<Fault>)
      modifies this`faults
      ensures this.faults == faults
    {
      this.faults := faults;
    }

    /** Decides the fate of a message leaving now, and draws no more than that takes. */
    method Send(sender: u64, receiver: u64, now: u64) returns (onWire: OnWire, ghost partitioned: bool, ghost draws: Draws)
      modifies this`rng
      ensures onWire == OnTheWire(partitioned, draws, now)
      ensures (onWire, rng) == Fate(cipher, old(rng), LinkOf(sender, receiver), FirstApplying(faults, sender, receiver, now), now)
      ensures var fault := FirstApplying(faults, sender, receiver, now);
              partitioned <==> fault.Some? && fault.value.Partition?
    {
      var fault := FirstApplying(faults, sender, receiver, now);
      partitioned, draws := false, Draws(true, 0, false, 0);
      if fault.Some? && fault.value.Partition? {
        partitioned := true;
        return Nothing, partitioned, draws;
      }
      var link := LinkOf(sender, receiver);
      var odds := if fault.Some? then fault.value.odds else link.loss;
      var lost := Drawn(cipher, rng, odds);
      rng := OnFrom(cipher, rng, odds);
      if lost {
        return Nothing, partitioned, draws;
      }
      var first := Delay(cipher, rng, link);
      rng := AfterDelay(cipher, rng, link);
      var duplicated := Drawn(cipher, rng, link.duplication);
      rng := OnFrom(cipher, rng, link.duplication);
      if !duplicated {
        draws := Draws(false, first, false, 0);
        return Once(Later(now, first)), partitioned, draws;
      }
      var again := Delay(cipher, rng, link);
      rng := AfterDelay(cipher, rng, link);
      draws := Draws(false, first, true, again);
      return Twice(Later(now, first), Later(now, again)), partitioned, draws;
    }
  }

  /** A send, of a message of this fate: lost or cut off, it leaves the kernel as it was; otherwise its copies are filed. */
  ghost predicate IsSent(s: State, t: State, fate: OnWire, partitioned: bool, draws: Draws, to: NodeId, delivery: Delivery) {
    && (fate.Nothing? ==> t == s)
    && fate == OnTheWire(partitioned, draws, s.timers.now)
    && t == Next(s, Step.Send(to, Copies(partitioned, draws), delivery))
  }

  /** A node sends: the wire settles what becomes of the message, and what that put on its way is filed, everyone
      waiting for it woken. A message lost, or a direction cut, leaves everything but the generator as it was. */
  method Send(executor: E.Executor, wire: Wire, sender: NodeId, to: NodeId, message: Message)
    returns (ghost partitioned: bool, ghost draws: Draws)
    requires executor.Valid() && sender <= END_OF_TIME && to <= END_OF_TIME
    modifies executor, executor.inboxes, wire`rng
    ensures executor.Valid() && (Steady(old(executor.View())) ==> Steady(executor.View()))
    ensures var fate := Fate(wire.cipher, old(wire.rng), wire.LinkOf(sender, to),
                             FirstApplying(wire.faults, sender, to, old(executor.clock.now)), old(executor.clock.now));
            && wire.rng == fate.1
            && IsSent(old(executor.View()), executor.View(), fate.0, partitioned, draws, to, Delivery(sender, message))
  {
    hide Fate, Next, Steady, E.Arriving, E.WakesAll;
    var onWire;
    onWire, partitioned, draws := wire.Send(sender, to, executor.clock.now);
    executor.SendOn(to, Delivery(sender, message), onWire, partitioned, draws);
  }
}
