/** The simulation kernel as a machine over its steps: the clock and its timers, the tasks and which of
    them are ready, the waits tasks are in the middle of, and the inboxes messages land in.

    A task is whatever it likes: between being polled and giving its poll back it may take any of the
    steps below, in any order and any number of times, with any waker, and it may give its poll back whenever
    it pleases. What a task that looks after its waits does beside is `Proper`. */
module Kernel {
  import opened Bytes
  import opened Clock
  import opened EventQueue
  import opened Wrappers

  type TaskId = nat
  type NodeId = nat

  /** What marks a task ready. Two wakers of one task may still not be each other. */
  datatype Waker = Waker(task: TaskId, mark: nat)

  /** A wait a task may be in the middle of: on the clock, or on an inbox. */
  datatype Wait = Sleeping(id: nat) | Receiving(id: nat)

  /** A wait's timer: the event it waits in the queue as, and whom that would wake. */
  datatype Armed = Armed(event: EventId, waker: Waker)

  datatype Timers = Timers(now: u64, queue: map<EventId, Waker>, next: nat, armed: map<Wait, Armed>)

  datatype Join = Join(finished: bool, waiting: Option<Waker>)

  /** `polled` is the waits the running task has looked at since its poll began. */
  datatype Tasks = Tasks(live: set<TaskId>, spawned: set<TaskId>, next: TaskId, ready: set<TaskId>,
                         running: Option<TaskId>, polled: set<Wait>, joins: map<TaskId, Join>)

  type Message(==)
  datatype Delivery = Delivery(sender: NodeId, message: Message)

  /** Messages in flight are keyed as timers are: by when they land, and the order they were sent in. */
  datatype Inbox = Inbox(inFlight: map<EventId, Delivery>, waiting: map<nat, Waker>)

  /** `filed` and `taken` record every copy put on the wire, and every one each node has taken. */
  datatype Net = Net(nodes: map<NodeId, Inbox>, nextNode: NodeId, nextArrival: nat,
                     filed: map<EventId, (NodeId, Delivery)>, taken: map<NodeId, seq<EventId>>)

  datatype State = State(timers: Timers, tasks: Tasks, net: Net,
                         deadlines: map<nat, u64>, homes: map<nat, NodeId>, received: set<nat>)

  const START := State(Timers(0, map[], 0, map[]), Tasks({}, {}, 0, {}, None, {}, map[]),
                       Net(map[], 0, 0, map[], map[]), map[], map[], {})

  // ---------------------------------------------------------------------------------------------
  // Timers

  function Disarm(t: Timers, w: Wait): Timers {
    if w in t.armed then t.(queue := t.queue - {t.armed[w].event}, armed := t.armed - {w}) else t
  }

  function Arm(t: Timers, w: Wait, at: u64, waker: Waker): Timers {
    var e := EventId(at, t.next);
    t.(queue := t.queue[e := waker], next := t.next + 1, armed := t.armed[w := Armed(e, waker)])
  }

  /** Whether `w` holds a timer at `at` that would wake whoever holds `waker`. */
  predicate AimedAt(t: Timers, w: Wait, at: u64, waker: Waker) {
    w in t.armed && t.armed[w].event.at == at && t.armed[w].waker == waker
  }

  /** `w` pointed at `at`: left alone when it is already, and otherwise armed afresh. */
  function Aim(t: Timers, w: Wait, at: u64, waker: Waker): Timers {
    if AimedAt(t, w, at, waker) then t else Arm(Disarm(t, w), w, at, waker)
  }

  // ---------------------------------------------------------------------------------------------
  // What the executor does

  /** Every task spawned since is taken on. */
  function Adopted(k: Tasks): Tasks {
    k.(live := k.live + k.spawned, spawned := {})
  }

  predicate IsLowest(id: TaskId, ids: set<TaskId>) {
    id in ids && forall other :: other in ids ==> id <= other
  }

  /** The lowest ready task begins its poll. A task that has finished is passed over. */
  function Begun(k: Tasks, id: TaskId): Tasks {
    var adopted := Adopted(k);
    if id in adopted.live
    then adopted.(ready := adopted.ready - {id}, running := Some(id), polled := {})
    else adopted.(ready := adopted.ready - {id})
  }

  datatype Turn =
    | Poll(task: TaskId)
    | Done
    | Stalled(pending: set<TaskId>)
    | Fire(event: EventId)
    | Passed(error: ClockError)

  /** What the run loop does next, when no task is running. */
  ghost predicate Turns(s: State, turn: Turn) {
    var k := Adopted(s.tasks);
    if k.ready != {} then turn.Poll? && IsLowest(turn.task, k.ready)
    else if k.live == {} then turn == Done
    else if s.timers.queue == map[] then turn == Stalled(k.live)
    else exists e :: IsEarliest(s.timers.queue, e)
                     && turn == if e.at < s.timers.now then Passed(ClockBackwards(s.timers.now, e.at)) else Fire(e)
  }

  /** The clock reaches the earliest event, which wakes whoever it was for. */
  function Fired(s: State, e: EventId): State
    requires e in s.timers.queue
  {
    s.(timers := s.timers.(now := e.at, queue := s.timers.queue - {e}),
       tasks := Woken(Adopted(s.tasks), {s.timers.queue[e].task}))
  }

  function Woken(k: Tasks, ids: set<TaskId>): Tasks {
    k.(ready := k.ready + ids)
  }

  /** The running task gives its poll back, having finished or not. One that finished wakes whoever
      joined it. */
  function Ended(k: Tasks, finished: bool): Tasks
    requires k.running.Some?
  {
    var id := k.running.value;
    if !finished then k.(running := None, polled := {})
    else
      var join := if id in k.joins then k.joins[id] else Join(false, None);
      var over := k.(running := None, polled := {}, live := k.live - {id},
                     joins := k.joins[id := Join(true, None)]);
      match join.waiting
      case None => over
      case Some(waker) => Woken(over, {waker.task})
  }

  // ---------------------------------------------------------------------------------------------
  // What a task does

  function Spawned(k: Tasks): Tasks {
    k.(spawned := k.spawned + {k.next}, ready := k.ready + {k.next}, next := k.next + 1,
       joins := k.joins[k.next := Join(false, None)])
  }

  function Looked(s: State, w: Wait): State {
    s.(tasks := s.tasks.(polled := s.tasks.polled + {w}))
  }

  /** Whether a wait on the clock is over, and what polling it leaves. */
  predicate SleepOver(s: State, id: nat)
    requires id in s.deadlines
  {
    s.timers.now >= s.deadlines[id]
  }

  function SleepPolled(s: State, id: nat, waker: Waker): State
    requires id in s.deadlines
  {
    var w := Sleeping(id);
    var timers := if SleepOver(s, id) then Disarm(s.timers, w) else Aim(s.timers, w, s.deadlines[id], waker);
    Looked(s, w).(timers := timers)
  }

  function SleepDropped(s: State, id: nat): State {
    s.(timers := Disarm(s.timers, Sleeping(id)), deadlines := s.deadlines - {id})
  }

  function JoinPolled(k: Tasks, id: TaskId, waker: Waker): Tasks
    requires id in k.joins
  {
    if k.joins[id].finished then k else k.(joins := k.joins[id := Join(false, Some(waker))])
  }

  function JoinDropped(k: Tasks, id: TaskId): Tasks
    requires id in k.joins
  {
    k.(joins := k.joins[id := k.joins[id].(waiting := None)])
  }

  // ---------------------------------------------------------------------------------------------
  // The inboxes

  const EMPTY := Inbox(map[], map[])

  function NodeAdded(n: Net): Net {
    n.(nodes := n.nodes[n.nextNode := EMPTY], taken := n.taken[n.nextNode := []], nextNode := n.nextNode + 1)
  }

  function Filed(n: Net, to: NodeId, at: u64, delivery: Delivery): Net {
    var a := EventId(at, n.nextArrival);
    var counted := n.(nextArrival := n.nextArrival + 1);
    if to !in n.nodes then counted
    else
      var box := n.nodes[to];
      counted.(nodes := n.nodes[to := box.(inFlight := box.inFlight[a := delivery])],
               filed := n.filed[a := (to, delivery)])
  }

  /** One `Filed` for each of `delays`, first to last, each that long after `now`. */
  function AllFiled(n: Net, to: NodeId, now: u64, delays: seq<nat>, delivery: Delivery): Net {
    if delays == [] then n
    else
      var last := |delays| - 1;
      Filed(AllFiled(n, to, now, delays[..last], delivery), to, Later(now, delays[last]), delivery)
  }

  function Waiting(n: Net, node: NodeId): map<nat, Waker> {
    if node in n.nodes then n.nodes[node].waiting else map[]
  }

  /** `n` with nobody waiting at `to`. */
  function Cleared(n: Net, to: NodeId): Net {
    if to in n.nodes then n.(nodes := n.nodes[to := n.nodes[to].(waiting := map[])]) else n
  }

  function TasksOf(waiting: map<nat, Waker>): set<TaskId> {
    set r | r in waiting :: waiting[r].task
  }

  /** A send that puts nothing on the wire wakes nobody; any other wakes everyone waiting there. */
  function Sent(s: State, to: NodeId, delays: seq<nat>, delivery: Delivery): State {
    if delays == [] then s
    else
      var n := AllFiled(s.net, to, s.timers.now, delays, delivery);
      s.(net := Cleared(n, to), tasks := Woken(s.tasks, TasksOf(Waiting(n, to))))
  }

  /** The message a node would take now: the earliest, once it has landed. */
  ghost predicate Landed(box: Inbox, now: u64, a: EventId) {
    IsEarliest(box.inFlight, a) && a.at <= now
  }

  /** `earliest` is the first of these messages, if there are any. */
  ghost predicate ComesFirst(inFlight: map<EventId, Delivery>, earliest: Option<EventId>) {
    match earliest
    case None => inFlight == map[]
    case Some(a) => IsEarliest(inFlight, a)
  }

  function Taken(n: Net, node: NodeId, a: EventId): Net
    requires node in n.nodes && node in n.taken
  {
    n.(nodes := n.nodes[node := n.nodes[node].(inFlight := n.nodes[node].inFlight - {a})],
       taken := n.taken[node := n.taken[node] + [a]])
  }

  /** A wait on an inbox gives back the message `a`, and holds no timer any more. */
  function ReceivedFrom(s: State, id: nat, a: EventId): State
    requires id in s.homes && s.homes[id] in s.net.nodes && s.homes[id] in s.net.taken
  {
    Looked(s, Receiving(id)).(net := Taken(s.net, s.homes[id], a), timers := Disarm(s.timers, Receiving(id)),
                               received := s.received + {id})
  }

  /** A wait on an inbox with nothing landed: aimed at the earliest arrival, if there is one, and
      registered with the inbox in any case. */
  function StillReceiving(s: State, id: nat, earliest: Option<EventId>, waker: Waker): State
    requires id in s.homes && s.homes[id] in s.net.nodes
  {
    var w := Receiving(id);
    var node := s.homes[id];
    var box := s.net.nodes[node];
    var timers := match earliest
      case None => Disarm(s.timers, w)
      case Some(a) => Aim(s.timers, w, a.at, waker);
    Looked(s, w).(timers := timers, received := s.received - {id},
                  net := s.net.(nodes := s.net.nodes[node := box.(waiting := box.waiting[id := waker])]))
  }

  function RecvDropped(s: State, id: nat): State
    requires id in s.homes && s.homes[id] in s.net.nodes
  {
    var node := s.homes[id];
    var box := s.net.nodes[node];
    s.(timers := Disarm(s.timers, Receiving(id)), homes := s.homes - {id}, received := s.received - {id},
       net := s.net.(nodes := s.net.nodes[node := box.(waiting := box.waiting - {id})]))
  }

  // ---------------------------------------------------------------------------------------------
  // One step of a run

  datatype Step =
    | RunLoop(turn: Turn)
    | EndPoll(finished: bool)
    | Spawn
    | NewSleep(sleep: nat, deadline: u64)
    | PollSleep(sleep: nat, waker: Waker)
    | DropSleep(sleep: nat)
    | PollJoin(joined: TaskId, waker: Waker)
    | DropJoin(joined: TaskId)
    | NewNode
    | NewRecv(recv: nat, node: NodeId)
    | PollRecv(recv: nat, earliest: Option<EventId>, waker: Waker)
    | DropRecv(recv: nat)
    | Send(to: NodeId, delays: seq<nat>, delivery: Delivery)

  predicate WakesRunning(k: Tasks, waker: Waker) {
    k.running == Some(waker.task)
  }

  /** A task that gives its poll back has looked, during it, at every wait that would wake it. A task
      that finishes has let go of them all. */
  ghost predicate Disciplined(s: State, finished: bool) {
    var k := s.tasks;
    && k.running.Some?
    && (forall w :: w in s.timers.armed && WakesRunning(k, s.timers.armed[w].waker) ==> w in k.polled && !finished)
    && (forall node, r :: node in s.net.nodes && r in s.net.nodes[node].waiting && r !in s.received
                          && WakesRunning(k, s.net.nodes[node].waiting[r])
                          ==> Receiving(r) in k.polled && !finished)
    && (forall id :: finished && id in k.joins && k.joins[id].waiting.Some? ==>
          !WakesRunning(k, k.joins[id].waiting.value))
  }

  /** What a task does that looks after its waits: it polls them to be woken itself, and gives a poll back only
      once it has looked at them all. */
  ghost predicate Proper(s: State, step: Step) {
    match step
    case EndPoll(finished) => Disciplined(s, finished)
    case PollSleep(_, waker) => WakesRunning(s.tasks, waker)
    case PollJoin(_, waker) => WakesRunning(s.tasks, waker)
    case PollRecv(_, _, waker) => WakesRunning(s.tasks, waker)
    case _ => true
  }

  ghost predicate Enabled(s: State, step: Step) {
    match step
    case RunLoop(turn) => s.tasks.running.None? && Turns(s, turn)
    case EndPoll(_) => s.tasks.running.Some?
    case Spawn => true
    case NewSleep(id, _) => id !in s.deadlines && Sleeping(id) !in s.timers.armed
    case PollSleep(id, _) => id in s.deadlines
    case DropSleep(id) => id in s.deadlines
    case PollJoin(id, _) => id in s.tasks.joins
    case DropJoin(id) => id in s.tasks.joins
    case NewNode => true
    case NewRecv(id, node) => id !in s.homes && node in s.net.nodes
    case PollRecv(id, earliest, _) =>
      && id in s.homes && s.homes[id] in s.net.nodes && s.homes[id] in s.net.taken
      && ComesFirst(s.net.nodes[s.homes[id]].inFlight, earliest)
    case DropRecv(id) => id in s.homes && s.homes[id] in s.net.nodes
    case Send(_, _, _) => true
  }

  ghost function Next(s: State, step: Step): State
    requires Enabled(s, step)
  {
    match step
    case RunLoop(turn) => AfterTurn(s, turn)
    case EndPoll(finished) => s.(tasks := Ended(s.tasks, finished))
    case Spawn => s.(tasks := Spawned(s.tasks))
    case NewSleep(id, deadline) => s.(deadlines := s.deadlines[id := deadline])
    case PollSleep(id, waker) => SleepPolled(s, id, waker)
    case DropSleep(id) => SleepDropped(s, id)
    case PollJoin(id, waker) => s.(tasks := JoinPolled(s.tasks, id, waker))
    case DropJoin(id) => s.(tasks := JoinDropped(s.tasks, id))
    case NewNode => s.(net := NodeAdded(s.net))
    case NewRecv(id, node) => s.(homes := s.homes[id := node])
    case PollRecv(id, earliest, waker) =>
      if earliest.Some? && earliest.value.at <= s.timers.now then ReceivedFrom(s, id, earliest.value)
      else StillReceiving(s, id, earliest, waker)
    case DropRecv(id) => RecvDropped(s, id)
    case Send(to, delays, delivery) => Sent(s, to, delays, delivery)
  }

  ghost function AfterTurn(s: State, turn: Turn): State
    requires Turns(s, turn)
  {
    match turn
    case Poll(id) => s.(tasks := Begun(s.tasks, id))
    case Fire(e) => Fired(s, e)
    case _ => s.(tasks := Adopted(s.tasks))
  }

  /** Every step of the run was one a task that looks after its waits would take. */
  ghost predicate ProperRun(states: seq<State>, steps: seq<Step>)
    requires |states| == |steps| + 1
  {
    forall i :: 0 <= i < |steps| ==> Proper(states[i], steps[i])
  }

  /** Every step of a run was one the state before it allowed. */
  ghost predicate Runs(states: seq<State>, steps: seq<Step>) {
    && |states| == |steps| + 1
    && (forall i :: 0 <= i < |steps| ==> Enabled(states[i], steps[i]) && states[i + 1] == Next(states[i], steps[i]))
  }
}
