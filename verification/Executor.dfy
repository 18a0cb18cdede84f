/** The executor and the waits it hands out, changed in place: each method leaves exactly the state the
    kernel's step does, and keeps every invariant of a run. */
module Executor {
  import opened Bytes
  import opened Clock
  import opened EventQueue
  import opened Inboxes
  import opened Kernel
  import opened KernelSafe
  import opened KernelSteady
  import opened Wrappers

  /** The lowest of a set of tasks, which is the one polled next. */
  method Lowest(ids: set<TaskId>) returns (id: TaskId)
    requires ids != {}
    ensures IsLowest(id, ids)
  {
    var todo := ids;
    id :| id in todo;
    todo := todo - {id};
    while todo != {}
      invariant id in ids && todo <= ids
      invariant forall other :: other in ids && other !in todo ==> id <= other
      decreases |todo|
    {
      var other :| other in todo;
      todo := todo - {other};
      if other < id {
        id := other;
      }
    }
  }

  /** Whatever a run keeps is what the methods below ask of it. */
  lemma SteadyAllows(s: State)
    requires Steady(s)
    ensures forall id :: Sleeping(id) in s.timers.armed ==>
              id in s.deadlines && s.timers.armed[Sleeping(id)].event.at == s.deadlines[id]
    ensures forall id :: id in s.homes ==> s.homes[id] in s.net.nodes && s.homes[id] in s.net.taken
    ensures forall e :: e in s.timers.queue ==> s.timers.now <= e.at
  {}

  lemma StepKeeps(s: State, step: Step)
    requires Enabled(s, step)
    ensures Steady(s) ==> Steady(Next(s, step))
    ensures Good(s) && Proper(s, step) ==> Good(Next(s, step))
  {
    hide Steady, Good, Enabled, Next, Proper;
    if Steady(s) { StepSteady(s, step); }
    if Good(s) && Proper(s, step) { StepGood(s, step); }
  }

  /** A wait's timers once it is pointed at `at`, or at nothing. */
  function Pointed(t: Timers, w: Wait, at: Option<u64>, waker: Waker): Timers {
    match at
    case None => Disarm(t, w)
    case Some(instant) => Aim(t, w, instant, waker)
  }

  lemma FirstIsFirst(inFlight: map<EventId, Delivery>, earliest: Option<EventId>, now: u64)
    requires ComesFirst(inFlight, earliest) && forall b :: b in inFlight ==> now < b.at
    ensures earliest.Some? ==> now < earliest.value.at
  {}

  lemma FiledCopies(n: Net, to: NodeId, now: u64, first: nat, second: nat, delivery: Delivery)
    ensures AllFiled(n, to, now, [first], delivery) == Filed(n, to, Later(now, first), delivery)
    ensures AllFiled(n, to, now, [first, second], delivery)
            == Filed(Filed(n, to, Later(now, first), delivery), to, Later(now, second), delivery)
  {
    assert [first][..0] == [] && [first, second][..1] == [first];
  }

  lemma SendIsSent(s: State, to: NodeId, delays: seq<nat>, delivery: Delivery)
    ensures Enabled(s, Send(to, delays, delivery)) && Next(s, Send(to, delays, delivery)) == Sent(s, to, delays, delivery)
  {
    hide Sent;
  }

  /** What is where a message is sent, once its copies are on their way: each of them in flight, and nobody waiting. */
  function Arriving(s: State, to: NodeId, first: nat, second: Option<nat>, delivery: Delivery): map<NodeId, Inbox> {
    var boxes, order := s.net.nodes, s.net.nextArrival;
    if to !in boxes then boxes
    else
      var one := boxes[to].inFlight[EventId(Later(s.timers.now, first), order) := delivery];
      boxes[to := Inbox(if second.None? then one
                        else one[EventId(Later(s.timers.now, second.value), order + 1) := delivery], map[])]
  }

  ghost predicate WakesAll(s: State, to: NodeId, ready: set<TaskId>) {
    forall task :: task in ready <==>
      task in s.tasks.ready
      || (to in s.net.nodes && exists r | r in s.net.nodes[to].waiting :: s.net.nodes[to].waiting[r].task == task)
  }

  lemma OneSent(s: State, to: NodeId, first: nat, delivery: Delivery)
    ensures var t := Sent(s, to, [first], delivery);
            t.timers == s.timers && t.net.nodes == Arriving(s, to, first, None, delivery) && WakesAll(s, to, t.tasks.ready)
  {
    hide AllFiled;
    FiledCopies(s.net, to, s.timers.now, first, 0, delivery);
  }

  lemma TwoSent(s: State, to: NodeId, first: nat, second: nat, delivery: Delivery)
    ensures var t := Sent(s, to, [first, second], delivery);
            && t.timers == s.timers && t.net.nodes == Arriving(s, to, first, Some(second), delivery)
            && WakesAll(s, to, t.tasks.ready)
  {
    hide AllFiled;
    FiledCopies(s.net, to, s.timers.now, first, second, delivery);
  }

  /** What polling a wait on an inbox is, as a step of a run. */
  lemma RecvPolled(s: State, id: nat, earliest: Option<EventId>, waker: Waker)
    requires id in s.homes && s.homes[id] in s.net.nodes && s.homes[id] in s.net.taken
    requires ComesFirst(s.net.nodes[s.homes[id]].inFlight, earliest)
    ensures Enabled(s, PollRecv(id, earliest, waker))
    ensures Next(s, PollRecv(id, earliest, waker))
            == if earliest.Some? && earliest.value.at <= s.timers.now then ReceivedFrom(s, id, earliest.value)
               else StillReceiving(s, id, earliest, waker)
    ensures Steady(s) ==> Steady(Next(s, PollRecv(id, earliest, waker)))
    ensures Good(s) && WakesRunning(s.tasks, waker) ==> Good(Next(s, PollRecv(id, earliest, waker)))
  {
    hide Steady, Good;
    StepKeeps(s, PollRecv(id, earliest, waker));
  }

  /** Taking on what was spawned is part of the turn that follows, whenever it is done. */
  lemma TurnAdopted(s: State, turn: Turn)
    requires Turns(s.(tasks := Adopted(s.tasks)), turn)
    ensures Turns(s, turn) && AfterTurn(s, turn) == AfterTurn(s.(tasks := Adopted(s.tasks)), turn)
  {}

  lemma TurnKeeps(s: State, turn: Turn)
    requires s.tasks.running.None? && Turns(s, turn)
    ensures Steady(s) ==> !turn.Passed? && Steady(AfterTurn(s, turn))
    ensures Good(s) ==> !turn.Passed? && Good(AfterTurn(s, turn))
  {
    hide Steady, Good, Turns, AfterTurn;
    if Steady(s) { TurnSteady(s, turn); }
    if Good(s) { TurnGood(s, turn); }
  }

  lemma PollTurn(s: State, id: TaskId)
    requires s.tasks.running.None? && IsLowest(id, s.tasks.ready)
    ensures Turns(s, Poll(id)) && AfterTurn(s, Poll(id)) == s.(tasks := Begun(s.tasks, id))
  {
    hide Begun;
  }

  lemma IdleTurn(s: State)
    requires s.tasks.running.None? && s.tasks.ready == {} && (Adopted(s.tasks).live == {} || s.timers.queue == map[])
    ensures var turn := if Adopted(s.tasks).live == {} then Done else Stalled(Adopted(s.tasks).live);
            Turns(s, turn) && AfterTurn(s, turn) == s.(tasks := Adopted(s.tasks))
  {}

  lemma FireTurn(s: State, e: EventId)
    requires s.tasks.running.None? && s.tasks.ready == {} && Adopted(s.tasks).live != {} && IsEarliest(s.timers.queue, e)
    ensures var turn := if e.at < s.timers.now then Passed(ClockBackwards(s.timers.now, e.at)) else Fire(e);
            Turns(s, turn) && (!turn.Passed? ==> AfterTurn(s, turn) == Fired(s, e))
  {
    hide Fired;
    var turn := if e.at < s.timers.now then Passed(ClockBackwards(s.timers.now, e.at)) else Fire(e);
    assert Turns(s, turn);
  }

  class Executor {
    const clock: VirtualClock
    const queue: EventQueue<Waker>
    const inboxes: Inboxes
    var live: set<TaskId>
    var spawned: set<TaskId>
    var next: TaskId
    var ready: set<TaskId>
    var joins: map<TaskId, Join>
    /** Which timer each wait holds, and whom it would wake. */
    var armed: map<Wait, Armed>
    var deadlines: map<nat, u64>
    var homes: map<nat, NodeId>
    var running: Option<TaskId>
    ghost var polled: set<Wait>
    ghost var received: set<nat>

    ghost function View(): State
      reads this, clock, queue, inboxes
    {
      State(Timers(clock.now, queue.pending, queue.next, armed),
            Tasks(live, spawned, next, ready, running, polled, joins),
            inboxes.View(), deadlines, homes, received)
    }

    ghost predicate Valid()
      reads this, queue
    {
      queue.Valid()
    }

    constructor ()
      ensures Valid() && View() == START && Good(View())
      ensures fresh(clock) && fresh(queue) && fresh(inboxes)
    {
      clock := new VirtualClock();
      queue := new EventQueue<Waker>();
      inboxes := new Inboxes();
      live, spawned, next, ready, joins := {}, {}, 0, {}, map[];
      armed, deadlines, homes := map[], map[], map[];
      running, polled, received := None, {}, {};
      new;
      StartGood();
    }

    /** Afterwards `w` holds no timer, and the queue has none of its. */
    method DisarmWait(w: Wait)
      requires queue.Valid()
      modifies this`armed, queue
      ensures queue.Valid() && View() == old(View()).(timers := Disarm(old(View().timers), w))
    {
      if w in armed {
        var e := armed[w].event;
        armed := armed - {w};
        var cancelled := queue.Cancel(e);
      }
    }

    /** Holds a timer for `w` at `at`, to wake whoever `waker` does. */
    method ArmWait(w: Wait, at: u64, waker: Waker)
      requires queue.Valid()
      modifies this`armed, queue
      ensures queue.Valid() && View() == old(View()).(timers := Arm(old(View().timers), w, at, waker))
    {
      var e := queue.Push(at, waker);
      armed := armed[w := Armed(e, waker)];
    }

    method Spawn() returns (id: TaskId)
      requires Valid()
      modifies this
      ensures Valid() && id == old(next) && View() == Next(old(View()), Step.Spawn)
      ensures Steady(old(View())) ==> Steady(View())
      ensures Good(old(View())) ==> Good(View())
    {
      hide Steady, Good;
      ghost var was := View();
      id := next;
      next := next + 1;
      spawned := spawned + {id};
      joins := joins[id := Join(false, None)];
      ready := ready + {id};
      StepKeeps(was, Step.Spawn);
    }

    method SleepUntil(id: nat, deadline: u64)
      requires Valid() && id !in deadlines && Sleeping(id) !in armed
      modifies this
      ensures Valid() && View() == Next(old(View()), NewSleep(id, deadline))
      ensures Steady(old(View())) ==> Steady(View())
      ensures Good(old(View())) ==> Good(View())
    {
      hide Steady, Good;
      ghost var was := View();
      deadlines := deadlines[id := deadline];
      StepKeeps(was, NewSleep(id, deadline));
    }

    /** Polls a wait on the clock: over once its deadline has come, and otherwise holding one timer that
        would wake whoever polls. */
    method SleepPoll(id: nat, waker: Waker) returns (over: bool)
      requires Valid() && Enabled(View(), PollSleep(id, waker))
      requires Sleeping(id) in armed ==> armed[Sleeping(id)].event.at == deadlines[id]
      modifies this, queue
      ensures Valid() && View() == Next(old(View()), PollSleep(id, waker))
      ensures Steady(old(View())) ==> Steady(View())
      ensures Good(old(View())) && WakesRunning(old(View()).tasks, waker) ==> Good(View())
      ensures over <==> SleepOver(old(View()), id)
    {
      ghost var was := View();
      hide Steady, Good;
      var w := Sleeping(id);
      polled := polled + {w};
      if clock.now >= deadlines[id] {
        DisarmWait(w);
        StepKeeps(was, PollSleep(id, waker));
        return true;
      }
      if !(w in armed && armed[w].waker == waker) {
        DisarmWait(w);
        ArmWait(w, deadlines[id], waker);
      }
      StepKeeps(was, PollSleep(id, waker));
      return false;
    }

    method SleepDrop(id: nat)
      requires Valid() && id in deadlines
      modifies this, queue
      ensures Valid() && View() == Next(old(View()), DropSleep(id))
      ensures Steady(old(View())) ==> Steady(View())
      ensures Good(old(View())) ==> Good(View())
    {
      hide Steady, Good;
      ghost var was := View();
      DisarmWait(Sleeping(id));
      deadlines := deadlines - {id};
      StepKeeps(was, DropSleep(id));
    }

    method Recv(id: nat, node: NodeId)
      requires Valid() && id !in homes && node in inboxes.nodes
      modifies this
      ensures Valid() && View() == Next(old(View()), NewRecv(id, node))
      ensures Steady(old(View())) ==> Steady(View())
      ensures Good(old(View())) ==> Good(View())
    {
      hide Steady, Good;
      ghost var was := View();
      homes := homes[id := node];
      StepKeeps(was, NewRecv(id, node));
    }

    /** Points a wait's timer at the next arrival: left where it is when it is already there for whoever
        polls, taken out when nothing is on its way. */
    method Reaim(w: Wait, at: Option<u64>, waker: Waker)
      requires Valid()
      modifies this`armed, queue
      ensures Valid()
      ensures View() == old(View()).(timers := Pointed(old(View().timers), w, at, waker))
    {
      if w in armed && Some(armed[w].event.at) == at && armed[w].waker == waker {
        return;
      }
      DisarmWait(w);
      if at.Some? {
        ArmWait(w, at.value, waker);
      }
    }

    /** Polls a wait on an inbox: the earliest message if it has landed, and otherwise aimed at the
        earliest to come and registered with the inbox. */
    method RecvPoll(id: nat, waker: Waker) returns (landed: Option<Delivery>, ghost earliest: Option<EventId>)
      requires Valid() && id in homes && homes[id] in inboxes.nodes && homes[id] in inboxes.taken
      modifies this, queue, inboxes
      ensures Valid() && ComesFirst(old(inboxes.nodes[homes[id]].inFlight), earliest)
      ensures View() == Next(old(View()), PollRecv(id, earliest, waker))
      ensures match landed
              case Some(delivery) => earliest.Some? && earliest.value.at <= old(clock.now)
                                     && old(inboxes.nodes[homes[id]].inFlight)[earliest.value] == delivery
              case None => earliest.Some? ==> old(clock.now) < earliest.value.at
      ensures Steady(old(View())) ==> Steady(View())
      ensures Good(old(View())) && WakesRunning(old(View()).tasks, waker) ==> Good(View())
    {
      hide Steady, Good, IsEarliest, Arm, Disarm, Disciplined, Next, Enabled;
      ghost var was := View();
      var w, node := Receiving(id), homes[id];
      ghost var a, b;
      landed, a := inboxes.TakeLanded(node, clock.now);
      var at;
      at, b := inboxes.NextLanding(node);
      polled := polled + {w};
      if landed.Some? {
        earliest := Some(a);
        received := received + {id};
        DisarmWait(w);
        assert View() == ReceivedFrom(was, id, a);
      } else {
        earliest := if at.Some? then Some(b) else None;
        FirstIsFirst(inboxes.nodes[node].inFlight, earliest, clock.now);
        received := received - {id};
        Reaim(w, at, waker);
        inboxes.Register(node, id, waker);
        assert View() == StillReceiving(was, id, earliest, waker);
      }
      RecvPolled(was, id, earliest, waker);
    }

    method RecvDrop(id: nat)
      requires Valid() && id in homes && homes[id] in inboxes.nodes
      modifies this, queue, inboxes
      ensures Valid() && View() == Next(old(View()), DropRecv(id))
      ensures Steady(old(View())) ==> Steady(View())
      ensures Good(old(View())) ==> Good(View())
    {
      hide Steady, Good;
      ghost var was := View();
      DisarmWait(Receiving(id));
      inboxes.Unregister(homes[id], id);
      homes := homes - {id};
      received := received - {id};
      StepKeeps(was, DropRecv(id));
    }

    /** Puts what the wire made of a message in flight, and wakes everyone waiting where it is to land. */
    method SendOn(to: NodeId, delivery: Delivery, onWire: OnWire, ghost partitioned: bool, ghost draws: Draws)
      requires Valid() && onWire == OnTheWire(partitioned, draws, clock.now)
      modifies this, inboxes
      ensures Valid() && View() == Next(old(View()), Send(to, Copies(partitioned, draws), delivery))
      ensures Steady(old(View())) ==> Steady(View())
      ensures Good(old(View())) ==> Good(View())
      ensures partitioned || draws.lost ==> View() == old(View())
      ensures !partitioned && !draws.lost ==>
                && View().timers == old(View().timers) && WakesAll(old(View()), to, ready)
                && inboxes.nodes == Arriving(old(View()), to, draws.delay, if draws.duplicated then Some(draws.again) else None, delivery)
    {
      hide Steady, Good, Filed, AllFiled, Cleared, TasksOf, Waiting, Next, Enabled, Arriving, WakesAll;
      ghost var was := View();
      ghost var copies := Copies(partitioned, draws);
      SendIsSent(was, to, copies, delivery);
      StepKeeps(was, Step.Send(to, copies, delivery));
      OneSent(was, to, draws.delay, delivery);
      TwoSent(was, to, draws.delay, draws.again, delivery);
      FiledCopies(was.net, to, clock.now, draws.delay, draws.again, delivery);
      if onWire == Nothing {
        return;
      }
      match onWire {
        case Once(at) =>
          inboxes.File(to, at, delivery);
        case Twice(first, second) =>
          inboxes.File(to, first, delivery);
          inboxes.File(to, second, delivery);
      }
      assert inboxes.View() == AllFiled(was.net, to, clock.now, copies, delivery);
      var waiting := inboxes.TakeWaiting(to);
      ready := ready + TasksOf(waiting);
    }

    /** Waits for a task to finish. Done at once if it has, and registered with it if not. */
    method JoinPoll(id: TaskId, waker: Waker) returns (finished: bool)
      requires Valid() && Enabled(View(), PollJoin(id, waker))
      modifies this
      ensures Valid() && View() == Next(old(View()), PollJoin(id, waker))
      ensures Steady(old(View())) ==> Steady(View())
      ensures Good(old(View())) && WakesRunning(old(View()).tasks, waker) ==> Good(View())
      ensures finished <==> id in old(joins) && old(joins)[id].finished
    {
      hide Steady, Good;
      ghost var was := View();
      StepKeeps(was, PollJoin(id, waker));
      if joins[id].finished {
        return true;
      }
      if joins[id].waiting != Some(waker) {
        joins := joins[id := Join(false, Some(waker))];
      }
      return false;
    }

    method JoinDrop(id: TaskId)
      requires Valid() && id in joins
      modifies this
      ensures Valid() && View() == Next(old(View()), DropJoin(id))
      ensures Steady(old(View())) ==> Steady(View())
      ensures Good(old(View())) ==> Good(View())
    {
      hide Steady, Good;
      ghost var was := View();
      joins := joins[id := joins[id].(waiting := None)];
      StepKeeps(was, DropJoin(id));
    }

    /** The running task gives its poll back. One that finished is forgotten, and whoever joined it is
        woken. */
    method PollOver(finished: bool)
      requires Valid() && running.Some?
      modifies this
      ensures Valid() && View() == Next(old(View()), EndPoll(finished))
      ensures Steady(old(View())) ==> Steady(View())
      ensures Good(old(View())) && Disciplined(old(View()), finished) ==> Good(View())
    {
      hide Steady, Good, Disciplined;
      ghost var was := View();
      StepKeeps(was, EndPoll(finished));
      if finished {
        var id := running.value;
        var waiting := if id in joins then joins[id].waiting else None;
        joins := joins[id := Join(true, None)];
        live := live - {id};
        if waiting.Some? {
          ready := ready + {waiting.value.task};
        }
      }
      running, polled := None, {};
    }

    /** The run loop up to the next poll: takes on what was spawned, begins the lowest ready task, and
        with none ready moves the clock to the earliest event and wakes whoever it was for. */
    method Turn() returns (turn: Turn)
      requires Valid() && running.None?
      modifies this, clock, queue
      ensures Valid() && Turns(old(View()), turn)
      ensures !turn.Passed? ==> View() == AfterTurn(old(View()), turn)
      ensures Steady(old(View())) ==> !turn.Passed? && Steady(View())
      ensures Good(old(View())) ==> !turn.Passed? && Good(View())
    {
      hide Steady, Good, IsEarliest, IsLowest, Turns, AfterTurn;
      ghost var was := View();
      live, spawned := live + spawned, {};
      if ready != {} {
        var id := Lowest(ready);
        PollTurn(was, id);
        TurnKeeps(was, Poll(id));
        ready := ready - {id};
        if id in live {
          running, polled := Some(id), {};
        }
        return Poll(id);
      }
      if live == {} {
        IdleTurn(was);
        TurnKeeps(was, Done);
        return Done;
      }
      turn := FireNext();
      TurnAdopted(was, turn);
      TurnKeeps(was, turn);
    }

    /** With nothing ready, the clock moves to the earliest event and whoever it was for is woken. A run with
        no event left has stalled. */
    method FireNext() returns (turn: Turn)
      requires Valid() && running.None? && ready == {} && spawned == {} && live != {}
      modifies this`ready, clock, queue
      ensures Valid() && Turns(old(View()), turn)
      ensures !turn.Passed? ==> View() == AfterTurn(old(View()), turn)
      ensures Steady(old(View())) ==> !turn.Passed? && Steady(View())
      ensures Good(old(View())) ==> !turn.Passed? && Good(View())
    {
      hide Steady, Good, IsEarliest, Turns, AfterTurn;
      ghost var was := View();
      var scheduled, e := queue.Pop();
      if scheduled.None? {
        assert live + was.tasks.spawned == live;
        IdleTurn(was);
        TurnKeeps(was, Stalled(live));
        return Stalled(live);
      }
      FireTurn(was, e);
      TurnKeeps(was, if e.at < was.timers.now then Passed(ClockBackwards(was.timers.now, e.at)) else Fire(e));
      var error := clock.AdvanceTo(scheduled.value.at);
      if error.Some? {
        return Passed(error.value);
      }
      ready := ready + {scheduled.value.event.task};
      return Fire(e);
    }
  }
}
