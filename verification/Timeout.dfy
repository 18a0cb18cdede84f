/** A deadline put around a wait on an inbox. The wait goes first at every poll, so a message landing exactly at the
    deadline is in time. */
module Timeout {
  import opened Bytes
  import opened EventQueue
  import opened Kernel
  import opened KernelSafe
  import opened KernelSteady
  import opened Wrappers
  import E = Executor

  datatype Timed = InTime(delivery: Delivery) | Elapsed

  /** Nothing in flight lands by `at`. */
  ghost predicate NothingBy(box: Inbox, at: u64) {
    forall a :: a in box.inFlight ==> at < a.at
  }

  lemma EarliestBy(box: Inbox, earliest: Option<EventId>, at: u64)
    requires ComesFirst(box.inFlight, earliest)
    ensures NothingBy(box, at) <==> (earliest.Some? ==> at < earliest.value.at)
  {}

  /** The clock does not pass the deadline of a wait that was polled before it and is still held. */
  lemma NeverPastDeadline(s: State, sleep: nat)
    requires Good(s) && Sleeping(sleep) in s.timers.armed
    ensures sleep in s.deadlines && s.timers.now <= s.deadlines[sleep]
  {
    hide Heard, Delivered, Spawning, Placed, Covered;
    assert KeptOne(s.timers, s.tasks, Sleeping(sleep));
  }

  /** The state after both halves are polled and neither is over. */
  ghost predicate BothPolled(s: State, recv: nat, sleep: nat, earliest: Option<EventId>, waker: Waker, t: State) {
    && Enabled(s, PollRecv(recv, earliest, waker))
    && var u := Next(s, PollRecv(recv, earliest, waker));
       Enabled(u, PollSleep(sleep, waker)) && t == Next(u, PollSleep(sleep, waker))
  }

  /** Polls the wait, and only if it is not over the deadline. A message that has landed comes back, and time is
      up only with nothing landed. In a run whose tasks look after their waits, and once the deadline holds a
      timer, no message comes back that landed after it and time is up exactly then. */
  method Poll(executor: E.Executor, recv: nat, sleep: nat, waker: Waker)
    returns (r: Option<Timed>, ghost earliest: Option<EventId>)
    requires executor.Valid() && Steady(executor.View())
    requires recv in executor.homes && sleep in executor.deadlines
    modifies executor, executor.queue, executor.inboxes
    ensures executor.Valid() && Steady(executor.View())
    ensures Good(old(executor.View())) && WakesRunning(old(executor.View()).tasks, waker) ==> Good(executor.View())
    ensures var s := old(executor.View());
            && recv in s.homes && s.homes[recv] in s.net.nodes && sleep in s.deadlines
            && ComesFirst(s.net.nodes[s.homes[recv]].inFlight, earliest)
    ensures var s := old(executor.View());
            var box, deadline, now := s.net.nodes[s.homes[recv]], s.deadlines[sleep], s.timers.now;
            var exact := Good(s) && Sleeping(sleep) in s.timers.armed;
            match r
            case Some(InTime(delivery)) =>
              && earliest.Some? && earliest.value.at <= now && delivery == box.inFlight[earliest.value]
              && Enabled(s, PollRecv(recv, earliest, waker))
              && executor.View() == Next(s, PollRecv(recv, earliest, waker))
              && (exact ==> earliest.value.at <= deadline)
            case Some(Elapsed) =>
              && NothingBy(box, deadline) && deadline <= now
              && BothPolled(s, recv, sleep, earliest, waker, executor.View())
              && (exact ==> now == deadline)
            case None =>
              && NothingBy(box, now) && now < deadline
              && BothPolled(s, recv, sleep, earliest, waker, executor.View())
              && Sleeping(sleep) in executor.armed
  {
    hide Steady, Lively, Good;
    ghost var s := executor.View();
    E.SteadyAllows(s);
    var landed;
    landed, earliest := executor.RecvPoll(recv, waker);
    ghost var box := s.net.nodes[s.homes[recv]];
    E.RecvPolled(s, recv, earliest, waker);
    EarliestBy(box, earliest, s.timers.now);
    if Good(s) && Sleeping(sleep) in s.timers.armed { NeverPastDeadline(s, sleep); }
    if landed.Some? {
      return Some(InTime(landed.value)), earliest;
    }
    ghost var u := executor.View();
    E.SteadyAllows(u);
    var over := executor.SleepPoll(sleep, waker);
    if over {
      EarliestBy(box, earliest, s.deadlines[sleep]);
      return Some(Elapsed), earliest;
    }
    PollArms(u, sleep, waker);
    return None, earliest;
  }

  /** Given up, neither half leaves a timer behind to carry the clock anywhere. */
  method Drop(executor: E.Executor, recv: nat, sleep: nat)
    requires executor.Valid() && Steady(executor.View())
    requires recv in executor.homes && sleep in executor.deadlines
    modifies executor, executor.queue, executor.inboxes
    ensures executor.Valid() && Steady(executor.View())
    ensures Good(old(executor.View())) ==> Good(executor.View())
    ensures var s, t := old(executor.View()), executor.View();
            && t.timers == Disarm(Disarm(s.timers, Sleeping(sleep)), Receiving(recv))
            && t.deadlines == s.deadlines - {sleep} && t.homes == s.homes - {recv}
    ensures forall w :: w in executor.armed <==> w in old(executor.armed) && w != Sleeping(sleep) && w != Receiving(recv)
  {
    hide Steady, Lively, Good;
    E.SteadyAllows(executor.View());
    executor.SleepDrop(sleep);
    executor.RecvDrop(recv);
  }

  /** Over a whole run whose tasks look after their waits: polled once and not over, and held on to since, a deadline around a wait on an inbox
      never lets the instant of its deadline go by. A message found at a later poll landed no later than the
      deadline, and time found to be up is up exactly then, with nothing landed and nothing due to by then. */
  lemma TimeoutExactInRun(states: seq<State>, steps: seq<Step>, i: nat, j: nat, recv: nat, sleep: nat,
                          first: Waker, last: Waker, earliest: Option<EventId>)
    requires Runs(states, steps) && ProperRun(states, steps) && Good(states[0]) && i < j < |steps|
    requires steps[i] == PollSleep(sleep, first) && !SleepOver(states[i], sleep)
    requires steps[j] == PollRecv(recv, earliest, last)
    requires forall k :: i < k < j ==> !LetsGo(states[k], steps[k], sleep)
    ensures sleep in states[i].deadlines && states[j].timers.now <= states[i].deadlines[sleep]
    ensures recv in states[j].homes && states[j].homes[recv] in states[j].net.nodes
    ensures var deadline, box := states[i].deadlines[sleep], states[j].net.nodes[states[j].homes[recv]];
            && (earliest.Some? && earliest.value.at <= states[j].timers.now ==>
                  earliest.value.at <= deadline && earliest.value in box.inFlight)
            && (!(earliest.Some? && earliest.value.at <= states[j].timers.now)
                && states[j].timers.now >= deadline ==>
                  states[j].timers.now == deadline && NothingBy(box, deadline))
  {
    hide Good, Next, LetsGo, ProperRun;
    StaysArmed(states, steps, i, j, sleep, first);
    RunGood(states, steps, j);
    NeverPastDeadline(states[j], sleep);
    assert Enabled(states[j], steps[j]);
    EarliestBy(states[j].net.nodes[states[j].homes[recv]], earliest, states[j].timers.now);
  }
}
