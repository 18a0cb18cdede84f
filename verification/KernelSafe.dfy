/** What a run keeps beside, when its tasks look after their waits: nobody is left waiting for what has already
    happened. */
module KernelSafe {
  import opened EventQueue
  import opened Kernel
  import opened KernelSteady
  import opened Wrappers

  // ---------------------------------------------------------------------------------------------
  // The invariants

  /** The task will look at `w` before time moves on: it is ready, or running and yet to get there. */
  predicate Awake(k: Tasks, task: TaskId, w: Wait) {
    task in k.ready || (k.running == Some(task) && w !in k.polled)
  }

  /** A wait that was armed still has its timer; or it fired at this very instant, and the task it woke
      has yet to look. */
  predicate KeptOne(t: Timers, k: Tasks, w: Wait)
    requires w in t.armed
  {
    var a := t.armed[w];
    && a.waker.task in k.live
    && (a.event in t.queue || (a.event.at == t.now && Awake(k, a.waker.task, w)))
  }

  ghost predicate Kept(t: Timers, k: Tasks) {
    forall w :: w in t.armed ==> KeptOne(t, k, w)
  }

  /** No wake-up is lost on an inbox: whoever waits there is awake, or there is nothing in flight, or a
      timer stands at or before the earliest of it. */
  ghost predicate HeardOne(box: Inbox, t: Timers, k: Tasks, r: nat)
    requires r in box.waiting
  {
    var waker := box.waiting[r];
    && waker.task in k.live
    && (Receiving(r) in t.armed ==> t.armed[Receiving(r)].waker == waker)
    && (Awake(k, waker.task, Receiving(r)) || box.inFlight == map[] || Covers(box, t, r))
  }

  ghost predicate Heard(n: Net, t: Timers, k: Tasks, received: set<nat>) {
    forall node, r :: node in n.nodes && r in n.nodes[node].waiting && r !in received ==>
      HeardOne(n.nodes[node], t, k, r)
  }

  /** A task nobody has taken on yet is ready; a join somebody waits at is one for a task that has not
      finished. */
  ghost predicate Spawning(k: Tasks) {
    && k.live !! k.spawned && k.spawned <= k.ready
    && (forall id :: id in k.live || id in k.spawned ==> id < k.next && id in k.joins)
    && (k.running.Some? ==> k.running.value in k.live)
    && (forall id :: id in k.joins ==> id < k.next)
    && (forall id :: id in k.joins ==> (k.joins[id].finished <==> id !in k.live && id !in k.spawned))
    && (forall id :: id in k.joins && k.joins[id].waiting.Some? ==>
          !k.joins[id].finished && k.joins[id].waiting.value.task in k.live)
  }

  ghost predicate Lively(s: State) {
    Kept(s.timers, s.tasks) && Heard(s.net, s.timers, s.tasks, s.received) && Spawning(s.tasks)
  }

  ghost predicate Good(s: State) {
    Steady(s) && Lively(s)
  }

  lemma StartGood()
    ensures Good(START)
  {
    StartSteady();
  }

  // ---------------------------------------------------------------------------------------------
  // Turns come and go

  /** Nothing but `w` lost its turn. */
  ghost predicate StillAwake(k: Tasks, l: Tasks, w: Wait) {
    && k.live <= l.live
    && forall task, v :: v != w && task in k.live && Awake(k, task, v) ==> Awake(l, task, v)
  }

  lemma KeptFrame(t: Timers, u: Timers, k: Tasks, l: Tasks, w: Wait)
    requires Kept(t, k) && Spares(t, u, w) && StillAwake(k, l, w)
    requires w in u.armed ==> KeptOne(u, l, w)
    ensures Kept(u, l)
  {
    forall v | v in u.armed ensures KeptOne(u, l, v) {
      if v != w { assert KeptOne(t, k, v); }
    }
  }

  lemma HeardFrame(n: Net, m: Net, t: Timers, u: Timers, k: Tasks, l: Tasks,
                   was: set<nat>, received: set<nat>, w: Wait, r: nat)
    requires Heard(n, t, k, was) && was - {r} <= received
    requires FewerInFlight(n, m, r) && Spares(t, u, w) && StillAwake(k, l, w)
    requires w == Receiving(r) || w.Sleeping?
    requires forall node :: node in m.nodes && r in m.nodes[node].waiting && r !in received ==>
               HeardOne(m.nodes[node], u, l, r)
    ensures Heard(m, u, l, received)
  {
    forall node, q | node in m.nodes && q in m.nodes[node].waiting && q !in received
      ensures HeardOne(m.nodes[node], u, l, q)
    {
      if q != r {
        assert HeardOne(n.nodes[node], t, k, q);
        HeardOneFrame(n.nodes[node], m.nodes[node], t, u, k, l, q, w);
      }
    }
  }

  lemma HeardOneFrame(box: Inbox, after: Inbox, t: Timers, u: Timers, k: Tasks, l: Tasks, q: nat, w: Wait)
    requires q in box.waiting && q in after.waiting && after.waiting[q] == box.waiting[q]
    requires after.inFlight.Keys <= box.inFlight.Keys
    requires HeardOne(box, t, k, q) && Spares(t, u, w) && StillAwake(k, l, w) && w != Receiving(q)
    ensures HeardOne(after, u, l, q)
  {
    if box.inFlight == map[] {
      assert after.inFlight == map[];
    }
  }

  lemma HeardSame(n: Net, t: Timers, u: Timers, k: Tasks, l: Tasks, received: set<nat>, w: Wait)
    requires Heard(n, t, k, received) && Spares(t, u, w) && StillAwake(k, l, w) && w.Sleeping?
    ensures Heard(n, u, l, received)
  {
    forall node, q | node in n.nodes && q in n.nodes[node].waiting && q !in received
      ensures HeardOne(n.nodes[node], u, l, q)
    {
      assert HeardOne(n.nodes[node], t, k, q);
      HeardOneFrame(n.nodes[node], n.nodes[node], t, u, k, l, q, w);
    }
  }

  /** Nobody lost a turn, and no wait's timer changed. */
  lemma TurnsKept(t: Timers, k: Tasks, l: Tasks, n: Net, received: set<nat>)
    requires Kept(t, k) && Heard(n, t, k, received)
    requires k.live <= l.live && forall task, v :: task in k.live && Awake(k, task, v) ==> Awake(l, task, v)
    ensures Kept(t, l) && Heard(n, t, l, received)
  {
    forall v | v in t.armed ensures KeptOne(t, l, v) {
      assert KeptOne(t, k, v);
    }
    forall node, q | node in n.nodes && q in n.nodes[node].waiting && q !in received
      ensures HeardOne(n.nodes[node], t, l, q)
    {
      assert HeardOne(n.nodes[node], t, k, q);
    }
  }

  lemma LookedAwake(s: State, w: Wait)
    requires Spawning(s.tasks)
    ensures StillAwake(s.tasks, Looked(s, w).tasks, w) && Spawning(Looked(s, w).tasks)
  {}

  lemma SameAwake(k: Tasks, w: Wait)
    ensures StillAwake(k, k, w)
  {}

  lemma PollerLives(s: State, waker: Waker)
    requires Spawning(s.tasks) && WakesRunning(s.tasks, waker)
    ensures waker.task in s.tasks.live
  {}

  // ---------------------------------------------------------------------------------------------
  // Each step keeps the invariants

  lemma PollSleepLively(s: State, id: nat, waker: Waker)
    requires Good(s) && id in s.deadlines && WakesRunning(s.tasks, waker)
    ensures Lively(SleepPolled(s, id, waker))
  {
    hide Owned, Timely, Covered, Delivered, Aimed, Placed, Heard, Spares, StillAwake, Kept, Spawning, Aim, Disarm;
    PollerLives(s, waker);
    var u := SleepPolled(s, id, waker);
    var w := Sleeping(id);
    if SleepOver(s, id) {
      DisarmKeeps(s.timers, w);
    } else {
      AimKeeps(s.timers, w, s.deadlines[id], waker);
    }
    LookedAwake(s, w);
    KeptFrame(s.timers, u.timers, s.tasks, u.tasks, w);
    HeardSame(s.net, s.timers, u.timers, s.tasks, u.tasks, s.received, w);
  }

  lemma DropSleepLively(s: State, id: nat)
    requires Good(s) && id in s.deadlines
    ensures Lively(SleepDropped(s, id))
  {
    hide Owned, Timely, Covered, Delivered, Aimed, Placed, Heard, Spares, StillAwake, Kept, Spawning, Disarm;
    var u := SleepDropped(s, id);
    var w := Sleeping(id);
    DisarmKeeps(s.timers, w);
    SameAwake(s.tasks, w);
    KeptFrame(s.timers, u.timers, s.tasks, u.tasks, w);
    HeardSame(s.net, s.timers, u.timers, s.tasks, u.tasks, s.received, w);
  }

  lemma ReceivedLively(s: State, id: nat, a: EventId)
    requires id in s.homes && s.homes[id] in s.net.nodes && s.homes[id] in s.net.taken
    requires Good(s)
    ensures Lively(ReceivedFrom(s, id, a))
  {
    hide Owned, Timely, Covered, Delivered, Aimed, Placed, Heard, HeardOne, Spares, StillAwake, Kept, Spawning, Disarm;
    hide FewerInFlight, Taken;
    var u := ReceivedFrom(s, id, a);
    var w := Receiving(id);
    DisarmKeeps(s.timers, w);
    LookedAwake(s, w);
    KeptFrame(s.timers, u.timers, s.tasks, u.tasks, w);
    TakenFewer(s.net, s.homes, s.homes[id], a, id);
    HeardFrame(s.net, u.net, s.timers, u.timers, s.tasks, u.tasks, s.received, u.received, w, id);
  }

  lemma NowHeard(u: State, node: NodeId, r: nat, waker: Waker, earliest: Option<EventId>)
    requires node in u.net.nodes && r in u.net.nodes[node].waiting && u.net.nodes[node].waiting[r] == waker
    requires waker.task in u.tasks.live
    requires match earliest
             case None => u.net.nodes[node].inFlight == map[] && Receiving(r) !in u.timers.armed
             case Some(a) =>
               && IsEarliest(u.net.nodes[node].inFlight, a)
               && Receiving(r) in u.timers.armed && u.timers.armed[Receiving(r)].event in u.timers.queue
               && u.timers.armed[Receiving(r)].event.at == a.at && u.timers.armed[Receiving(r)].waker == waker
    ensures HeardOne(u.net.nodes[node], u.timers, u.tasks, r)
  {}

  lemma StillReceivingLively(s: State, id: nat, earliest: Option<EventId>, waker: Waker)
    requires Good(s) && Enabled(s, PollRecv(id, earliest, waker)) && WakesRunning(s.tasks, waker)
    requires earliest.Some? ==> s.timers.now < earliest.value.at
    ensures Lively(StillReceiving(s, id, earliest, waker))
  {
    hide Owned, Timely, Covered, Delivered, Aimed, Placed, Heard, HeardOne, Spares, StillAwake, Kept, Spawning;
    hide Disarm, Aim, FewerInFlight;
    PollerLives(s, waker);
    var u := StillReceiving(s, id, earliest, waker);
    var w := Receiving(id);
    var node := s.homes[id];
    match earliest {
      case None => DisarmKeeps(s.timers, w);
      case Some(a) => AimKeeps(s.timers, w, a.at, waker);
    }
    LookedAwake(s, w);
    KeptFrame(s.timers, u.timers, s.tasks, u.tasks, w);
    RegisteredKeeps(s.net, s.homes, s.timers.now, node, id, Some(waker));
    assert u.net == Registered(s.net, node, id, Some(waker));
    NowHeard(u, node, id, waker, earliest);
    OnlyPlaced(u.net, u.homes, node, id);
    HeardFrame(s.net, u.net, s.timers, u.timers, s.tasks, u.tasks, s.received, u.received, w, id);
  }

  lemma DropRecvLively(s: State, id: nat)
    requires Good(s) && id in s.homes && s.homes[id] in s.net.nodes
    ensures Lively(RecvDropped(s, id))
  {
    hide Owned, Timely, Covered, Delivered, Aimed, Placed, Heard, HeardOne, Spares, StillAwake, Kept, Spawning;
    hide Disarm, FewerInFlight;
    var u := RecvDropped(s, id);
    var w := Receiving(id);
    var node := s.homes[id];
    DisarmKeeps(s.timers, w);
    SameAwake(s.tasks, w);
    KeptFrame(s.timers, u.timers, s.tasks, u.tasks, w);
    RegisteredKeeps(s.net, s.homes, s.timers.now, node, id, None);
    assert u.net == Registered(s.net, node, id, None);
    Unplaced(u.net, u.homes, id);
    HeardFrame(s.net, u.net, s.timers, u.timers, s.tasks, u.tasks, s.received, u.received, w, id);
  }

  lemma ClearedHeard(n: Net, m: Net, to: NodeId, t: Timers, k: Tasks, received: set<nat>)
    requires OnlyFiled(n, m, to) && Heard(n, t, k, received)
    ensures Heard(Cleared(m, to), t, k, received)
  {
    hide HeardOne, OnlyFiled, Cleared;
    var u := Cleared(m, to);
    forall node, r | node in u.nodes && r in u.nodes[node].waiting && r !in received
      ensures HeardOne(u.nodes[node], t, k, r)
    {
      ClearedBox(n, m, to, node);
      assert HeardOne(n.nodes[node], t, k, r);
    }
  }

  lemma SendLively(s: State, to: NodeId, delays: seq<nat>, delivery: Delivery)
    requires Good(s)
    ensures Lively(Sent(s, to, delays, delivery))
  {
    hide OnlyFiled, AllFiled, Owned, Timely, Covered, Delivered, Aimed, Placed, Kept, Heard, Cleared, Woken, Spawning;
    if delays != [] {
      var m := AllFiled(s.net, to, s.timers.now, delays, delivery);
      AllFiledDelivered(s.net, s.timers.now, to, delays, delivery);
      WokenLively(s, TasksOf(Waiting(m, to)));
      ClearedHeard(s.net, m, to, s.timers, Woken(s.tasks, TasksOf(Waiting(m, to))), s.received);
    }
  }

  lemma WokenLively(s: State, woken: set<TaskId>)
    requires Lively(s)
    ensures Lively(s.(tasks := Woken(s.tasks, woken)))
  {
    hide Kept, Heard;
    TurnsKept(s.timers, s.tasks, Woken(s.tasks, woken), s.net, s.received);
  }

  lemma NewNodeLively(s: State)
    requires Lively(s)
    ensures Lively(s.(net := NodeAdded(s.net)))
  {
    hide Kept, Spawning, HeardOne;
    var u := s.(net := NodeAdded(s.net));
    forall node, r | node in u.net.nodes && r in u.net.nodes[node].waiting && r !in u.received
      ensures HeardOne(u.net.nodes[node], u.timers, u.tasks, r)
    {
      assert HeardOne(s.net.nodes[node], s.timers, s.tasks, r);
    }
  }

  lemma TasksLively(s: State, l: Tasks)
    requires Lively(s) && Spawning(l) && s.tasks.live <= l.live
    requires forall task, v :: task in s.tasks.live && Awake(s.tasks, task, v) ==> Awake(l, task, v)
    ensures Lively(s.(tasks := l))
  {
    hide Heard, Kept;
    TurnsKept(s.timers, s.tasks, l, s.net, s.received);
  }

  lemma EndPollLively(s: State, finished: bool)
    requires Lively(s) && Disciplined(s, finished)
    ensures Lively(s.(tasks := Ended(s.tasks, finished)))
  {
    var u := s.(tasks := Ended(s.tasks, finished));
    EndedSpawning(s, finished);
    forall w | w in u.timers.armed ensures KeptOne(u.timers, u.tasks, w) {
      assert KeptOne(s.timers, s.tasks, w);
    }
    forall node, r | node in u.net.nodes && r in u.net.nodes[node].waiting && r !in u.received
      ensures HeardOne(u.net.nodes[node], u.timers, u.tasks, r)
    {
      assert HeardOne(s.net.nodes[node], s.timers, s.tasks, r);
    }
  }

  lemma EndedSpawning(s: State, finished: bool)
    requires Spawning(s.tasks) && Disciplined(s, finished)
    ensures Spawning(Ended(s.tasks, finished))
  {}

  lemma JoinsLively(s: State, step: Step)
    requires Lively(s) && Enabled(s, step) && Proper(s, step) && (step.Spawn? || step.PollJoin? || step.DropJoin?)
    ensures Lively(Next(s, step))
  {
    hide Heard, Kept;
    var l := Next(s, step).tasks;
    assert Spawning(l);
    TasksLively(s, l);
  }

  // ---------------------------------------------------------------------------------------------
  // The run loop

  /** Nothing is asleep with nothing to wake it: with no task ready or running, every armed wait still
      has its timer. */
  lemma AllQueued(s: State, w: Wait)
    requires Kept(s.timers, s.tasks) && s.tasks.ready == {} && s.tasks.running.None? && w in s.timers.armed
    ensures s.timers.armed[w].event in s.timers.queue
  {
    assert KeptOne(s.timers, s.tasks, w);
  }

  lemma WokenSpawning(k: Tasks, ids: set<TaskId>)
    requires Spawning(k)
    ensures Spawning(Woken(Adopted(k), ids))
  {}

  lemma FireKept(t: Timers, k: Tasks, e: EventId)
    requires Owned(t) && Kept(t, k) && e in t.queue && k.ready == {} && k.running.None?
    ensures Kept(t.(now := e.at, queue := t.queue - {e}), Woken(Adopted(k), {t.queue[e].task}))
  {
    var u := t.(now := e.at, queue := t.queue - {e});
    forall w | w in u.armed ensures KeptOne(u, Woken(Adopted(k), {t.queue[e].task}), w) {
      assert KeptOne(t, k, w);
    }
  }

  lemma FireHeardOne(box: Inbox, t: Timers, k: Tasks, r: nat, e: EventId)
    requires Owned(t) && Kept(t, k) && e in t.queue && k.ready == {} && k.running.None?
    requires r in box.waiting && HeardOne(box, t, k, r)
    ensures HeardOne(box, t.(now := e.at, queue := t.queue - {e}), Woken(Adopted(k), {t.queue[e].task}), r)
  {}

  lemma FireHeard(n: Net, t: Timers, k: Tasks, received: set<nat>, e: EventId)
    requires Owned(t) && Kept(t, k) && Heard(n, t, k, received) && e in t.queue && k.ready == {} && k.running.None?
    ensures Heard(n, t.(now := e.at, queue := t.queue - {e}), Woken(Adopted(k), {t.queue[e].task}), received)
  {
    hide HeardOne, Owned, Kept;
    forall node, r | node in n.nodes && r in n.nodes[node].waiting && r !in received
      ensures HeardOne(n.nodes[node], t.(now := e.at, queue := t.queue - {e}), Woken(Adopted(k), {t.queue[e].task}), r)
    {
      FireHeardOne(n.nodes[node], t, k, r, e);
    }
  }

  lemma FireLively(s: State, e: EventId)
    requires Good(s) && s.tasks.running.None? && s.tasks.ready == {} && IsEarliest(s.timers.queue, e)
    ensures Lively(Fired(s, e))
  {
    hide Timely, Covered, Delivered, Aimed, Placed, Kept, Owned, Heard, Spawning;
    FireKept(s.timers, s.tasks, e);
    FireHeard(s.net, s.timers, s.tasks, s.received, e);
    WokenSpawning(s.tasks, {s.timers.queue[e].task});
  }

  lemma BegunLively(s: State, id: TaskId)
    requires Lively(s) && s.tasks.running.None?
    ensures Lively(s.(tasks := Begun(s.tasks, id)))
  {
    hide Heard;
    var u := s.(tasks := Begun(s.tasks, id));
    TurnsKept(s.timers, s.tasks, u.tasks, s.net, s.received);
  }

  lemma AdoptLively(s: State)
    requires Lively(s)
    ensures Lively(s.(tasks := Adopted(s.tasks)))
  {
    hide Heard, Kept;
    TasksLively(s, Adopted(s.tasks));
  }

  lemma TurnLively(s: State, turn: Turn)
    requires Good(s) && s.tasks.running.None? && Turns(s, turn) && !turn.Passed?
    ensures Lively(AfterTurn(s, turn))
  {
    hide Steady, Lively, Begun, Fired, IsEarliest, IsLowest;
    match turn
    case Poll(id) => BegunLively(s, id);
    case Fire(e) => FireLively(s, e);
    case _ => AdoptLively(s);
  }

  lemma TurnGood(s: State, turn: Turn)
    requires Good(s) && s.tasks.running.None? && Turns(s, turn)
    ensures !turn.Passed? && Good(AfterTurn(s, turn))
  {
    hide Steady, Lively, Turns;
    TurnSteady(s, turn);
    TurnLively(s, turn);
  }

  /** Every step a task that looks after its waits takes keeps every invariant. */
  lemma StepGood(s: State, step: Step)
    requires Good(s) && Enabled(s, step) && Proper(s, step)
    ensures Good(Next(s, step))
  {
    hide Steady, Lively, Turns, Disciplined, SleepPolled, SleepDropped, ReceivedFrom, StillReceiving, RecvDropped, Sent;
    hide NodeAdded, Ended;
    StepSteady(s, step);
    match step
    case RunLoop(turn) => TurnGood(s, turn);
    case EndPoll(finished) => EndPollLively(s, finished);
    case PollSleep(id, waker) => PollSleepLively(s, id, waker);
    case DropSleep(id) => DropSleepLively(s, id);
    case NewNode => NewNodeLively(s);
    case PollRecv(id, earliest, waker) =>
      if earliest.Some? && earliest.value.at <= s.timers.now { ReceivedLively(s, id, earliest.value); }
      else { StillReceivingLively(s, id, earliest, waker); }
    case DropRecv(id) => DropRecvLively(s, id);
    case Send(to, delays, delivery) => SendLively(s, to, delays, delivery);
    case NewSleep(_, _) => NewWaitLively(s, step);
    case NewRecv(_, _) => NewWaitLively(s, step);
    case _ => JoinsLively(s, step);
  }

  lemma NewWaitLively(s: State, step: Step)
    requires Lively(s) && Enabled(s, step) && (step.NewSleep? || step.NewRecv?)
    ensures Lively(Next(s, step))
  {
    hide Heard, Kept, Spawning;
  }

  lemma {:induction false} RunGood(states: seq<State>, steps: seq<Step>, i: nat)
    requires Runs(states, steps) && ProperRun(states, steps) && Good(states[0]) && i < |states|
    ensures Good(states[i])
  {
    hide Good, Enabled, Next, Proper;
    if i > 0 {
      RunGood(states, steps, i - 1);
      assert Enabled(states[i - 1], steps[i - 1]) && states[i] == Next(states[i - 1], steps[i - 1]);
      StepGood(states[i - 1], steps[i - 1]);
    }
  }

  // ---------------------------------------------------------------------------------------------
  // What the invariants come to

  /** A wait on the clock that was polled before its deadline, when it is over, is over at the deadline
      and at no other instant. */
  lemma SleepExact(s: State, id: nat, waker: Waker)
    requires Good(s) && Enabled(s, PollSleep(id, waker)) && Sleeping(id) in s.timers.armed && SleepOver(s, id)
    ensures s.timers.now == s.deadlines[id]
  {
    assert KeptOne(s.timers, s.tasks, Sleeping(id));
  }

  /** Over a whole run: polled at step `i` and not over, held on to since, and over for the first time
      at step `j`, the wait is over exactly when it was to be. */
  lemma SleepExactInRun(states: seq<State>, steps: seq<Step>, i: nat, j: nat, id: nat, first: Waker, last: Waker)
    requires Runs(states, steps) && ProperRun(states, steps) && Good(states[0]) && i < j < |steps|
    requires steps[i] == PollSleep(id, first) && !SleepOver(states[i], id)
    requires steps[j] == PollSleep(id, last) && SleepOver(states[j], id)
    requires forall k :: i < k < j ==> !LetsGo(states[k], steps[k], id)
    ensures states[j].timers.now == states[j].deadlines[id] == states[i].deadlines[id]
  {
    hide Good, ProperRun, LetsGo;
    StaysArmed(states, steps, i, j, id, first);
    RunGood(states, steps, j);
    SleepExact(states[j], id, last);
  }

  /** The wait is given up, or polled and over. */
  predicate LetsGo(s: State, step: Step, id: nat) {
    match step
    case DropSleep(other) => other == id
    case PollSleep(other, _) => other == id && id in s.deadlines && SleepOver(s, id)
    case _ => false
  }

  lemma {:induction false} StaysArmed(states: seq<State>, steps: seq<Step>, i: nat, j: nat, id: nat, first: Waker)
    requires Runs(states, steps) && i < j < |steps|
    requires steps[i] == PollSleep(id, first) && !SleepOver(states[i], id)
    requires forall k :: i < k < j ==> !LetsGo(states[k], steps[k], id)
    ensures Sleeping(id) in states[j].timers.armed && id in states[j].deadlines
    ensures id in states[i].deadlines && states[j].deadlines[id] == states[i].deadlines[id]
    decreases j
  {
    hide Enabled, Next;
    PollArms(states[i], id, first);
    assert states[i + 1] == Next(states[i], steps[i]);
    if i + 1 < j {
      StaysArmed(states, steps, i, j - 1, id, first);
      assert Enabled(states[j - 1], steps[j - 1]) && states[j] == Next(states[j - 1], steps[j - 1]);
      StepArmed(states[j - 1], steps[j - 1], id);
    }
  }

  lemma PollArms(s: State, id: nat, waker: Waker)
    requires Enabled(s, PollSleep(id, waker)) && !SleepOver(s, id)
    ensures Sleeping(id) in Next(s, PollSleep(id, waker)).timers.armed
    ensures id in s.deadlines && Next(s, PollSleep(id, waker)).deadlines == s.deadlines
  {}

  lemma StepArmed(s: State, step: Step, id: nat)
    requires Enabled(s, step) && Sleeping(id) in s.timers.armed && id in s.deadlines && !LetsGo(s, step, id)
    ensures Sleeping(id) in Next(s, step).timers.armed
    ensures id in Next(s, step).deadlines && Next(s, step).deadlines[id] == s.deadlines[id]
  {
    hide Disciplined, Turns;
  }

  /** In a run whose tasks look after their waits the clock passes no message anybody waits for, woken or not. */
  lemma NeverPassesAnyMessage(s: State, e: EventId, node: NodeId, r: nat, a: EventId)
    requires Good(s) && s.tasks.running.None? && Turns(s, Fire(e))
    requires node in s.net.nodes && r in s.net.nodes[node].waiting && r !in s.received
    requires a in s.net.nodes[node].inFlight
    ensures e.at <= a.at
  {
    hide Steady;
    if Receiving(r) in s.timers.armed { AllQueued(s, Receiving(r)); }
    NeverPassesAMessage(s, e, node, r, a);
  }

  /** A run that stalls has stalled for good reason: no wait holds a timer, every wait on an inbox is on
      an empty one, and every join is of a task that has not finished. */
  lemma StallsForGoodReason(s: State, pending: set<TaskId>)
    requires Good(s) && s.tasks.running.None? && Turns(s, Stalled(pending))
    ensures s.timers.armed == map[] && pending == s.tasks.live
    ensures forall node, r :: node in s.net.nodes && r in s.net.nodes[node].waiting && r !in s.received ==>
              s.net.nodes[node].inFlight == map[]
    ensures forall id :: id in s.tasks.joins && s.tasks.joins[id].waiting.Some? ==> id in pending
  {
    hide Steady, KeptOne, HeardOne;
    assert s.tasks.ready == {} && s.timers.queue == map[];
    forall w ensures w !in s.timers.armed {
      if w in s.timers.armed { AllQueued(s, w); }
    }
    forall node, r | node in s.net.nodes && r in s.net.nodes[node].waiting && r !in s.received
      ensures s.net.nodes[node].inFlight == map[]
    {
      StalledInbox(s.net.nodes[node], s.timers, s.tasks, r);
    }
  }

  lemma StalledInbox(box: Inbox, t: Timers, k: Tasks, r: nat)
    requires r in box.waiting && HeardOne(box, t, k, r)
    requires t.queue == map[] && k.ready == {} && k.running.None?
    ensures box.inFlight == map[]
  {}
}
