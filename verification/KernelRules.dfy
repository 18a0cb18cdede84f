/** What each step of the kernel changes, said of the parts of its state: which timers wait and when they are due,
    which tasks are ready, who is woken, and what is in flight. */
module KernelRules {
  import opened Bytes
  import opened Clock
  import opened EventQueue
  import opened Kernel
  import opened Wrappers

  /** Nothing but the tasks, the timers or the inboxes has changed. */
  predicate OnlyTasks(s: State, t: State) {
    t == s.(tasks := t.tasks)
  }

  predicate OnlyTimersAndPolled(s: State, t: State) {
    t == s.(timers := t.timers, tasks := s.tasks.(polled := t.tasks.polled))
  }

  /** A wait lets its timer go, if it holds one, and no other wait's or event is touched. */
  ghost predicate LetGo(t: Timers, u: Timers, w: Wait) {
    && u.now == t.now && u.next == t.next
    && (forall v :: v in u.armed <==> v in t.armed && v != w)
    && (forall v :: v in u.armed ==> u.armed[v] == t.armed[v])
    && (forall e :: e in u.queue <==> e in t.queue && !(w in t.armed && e == t.armed[w].event))
    && (forall e :: e in u.queue ==> u.queue[e] == t.queue[e])
  }

  /** A wait holds one timer, due at `at` for whoever `waker` is: the one it held, if that was due then for them
      already, and otherwise one pushed last, with the one it held gone. */
  ghost predicate HoldsOne(t: Timers, u: Timers, w: Wait, at: u64, waker: Waker) {
    if w in t.armed && t.armed[w].event.at == at && t.armed[w].waker == waker then u == t
    else
      && u.now == t.now && u.next == t.next + 1
      && (forall v :: v in u.armed <==> v in t.armed || v == w)
      && u.armed[w] == Armed(EventId(at, t.next), waker)
      && (forall v :: v in t.armed && v != w ==> u.armed[v] == t.armed[v])
      && (forall e :: e in u.queue <==>
            e == EventId(at, t.next) || (e in t.queue && !(w in t.armed && e == t.armed[w].event)))
      && u.queue[EventId(at, t.next)] == waker
      && (forall e :: e in u.queue && e != EventId(at, t.next) ==> u.queue[e] == t.queue[e])
  }

  /** A wait on the clock is over once its deadline has come, and then holds no timer; until then it holds one
      there. */
  lemma SleepIsPolled(s: State, id: nat, waker: Waker)
    requires id in s.deadlines
    ensures var t, w := Next(s, PollSleep(id, waker)), Sleeping(id);
            && OnlyTimersAndPolled(s, t) && t.tasks.polled == s.tasks.polled + {w}
            && (if s.deadlines[id] <= s.timers.now then LetGo(s.timers, t.timers, w)
                else HoldsOne(s.timers, t.timers, w, s.deadlines[id], waker))
            && (SleepOver(s, id) <==> s.deadlines[id] <= s.timers.now)
  {}

  lemma SleepIsDropped(s: State, id: nat)
    requires id in s.deadlines
    ensures var t := Next(s, DropSleep(id));
            && t == s.(timers := t.timers, deadlines := t.deadlines) && LetGo(s.timers, t.timers, Sleeping(id))
            && (forall other :: other in t.deadlines <==> other in s.deadlines && other != id)
            && (forall other :: other in t.deadlines ==> t.deadlines[other] == s.deadlines[other])
  {}

  /** A wait on an inbox takes the first message to have landed, and then holds no timer; with none landed it is
      aimed at the first that will, if there is one, and registered there whatever comes. */
  lemma RecvIsPolled(s: State, id: nat, earliest: Option<EventId>, waker: Waker)
    requires Enabled(s, PollRecv(id, earliest, waker))
    ensures var w, node, t := Receiving(id), s.homes[id], Next(s, PollRecv(id, earliest, waker));
            var box := s.net.nodes[node];
            && t.tasks == s.tasks.(polled := s.tasks.polled + {w})
            && t.deadlines == s.deadlines && t.homes == s.homes && node in t.net.nodes
            && (forall other :: other in s.net.nodes && other != node ==> other in t.net.nodes && t.net.nodes[other] == s.net.nodes[other])
            && (if exists a | a in box.inFlight :: a.at <= s.timers.now then
                  && earliest.Some? && earliest.value in box.inFlight && earliest.value.at <= s.timers.now
                  && (forall a :: a in box.inFlight && a != earliest.value ==>
                        earliest.value.at < a.at || (earliest.value.at == a.at && earliest.value.order < a.order))
                  && t.net.nodes[node] == Inbox(box.inFlight - {earliest.value}, box.waiting)
                  && node in t.net.taken && node in s.net.taken && t.net.taken[node] == s.net.taken[node] + [earliest.value]
                  && LetGo(s.timers, t.timers, w) && id in t.received
                else
                  && t.net.nodes[node] == Inbox(box.inFlight, box.waiting[id := waker]) && t.net.taken == s.net.taken
                  && id !in t.received
                  && match earliest
                     case None => box.inFlight == map[] && LetGo(s.timers, t.timers, w)
                     case Some(a) => a in box.inFlight && HoldsOne(s.timers, t.timers, w, a.at, waker))
  {
    hide LetGo, HoldsOne;
    var w, box := Receiving(id), s.net.nodes[s.homes[id]];
    match earliest
    case None =>
      DisarmLetsGo(s.timers, w);
    case Some(a) =>
      if a.at <= s.timers.now {
        assert a in box.inFlight && a.at <= s.timers.now;
        DisarmLetsGo(s.timers, w);
      } else {
        AimHoldsOne(s.timers, w, a.at, waker);
      }
  }

  lemma DisarmLetsGo(t: Timers, w: Wait)
    ensures LetGo(t, Disarm(t, w), w)
  {}

  lemma AimHoldsOne(t: Timers, w: Wait, at: u64, waker: Waker)
    ensures HoldsOne(t, Aim(t, w, at, waker), w, at, waker)
  {}

  lemma RecvIsDropped(s: State, id: nat)
    requires Enabled(s, DropRecv(id))
    ensures var t, node := Next(s, DropRecv(id)), s.homes[id];
            var box := s.net.nodes[node];
            && LetGo(s.timers, t.timers, Receiving(id)) && t.tasks == s.tasks && t.deadlines == s.deadlines
            && id !in t.homes && id !in t.received
            && (forall other :: other in t.homes <==> other in s.homes && other != id)
            && t.net.nodes == s.net.nodes[node := Inbox(box.inFlight, box.waiting - {id})]
  {}

  /** A task spawned is ready at once, and joined by nobody yet. */
  lemma SpawnIsReady(s: State)
    ensures var t, id := Next(s, Spawn), s.tasks.next;
            && OnlyTasks(s, t) && t.tasks.next == id + 1 && id in t.tasks.ready && id in t.tasks.spawned
            && t.tasks.live == s.tasks.live && t.tasks.running == s.tasks.running
            && (forall other :: other != id ==>
                  (other in t.tasks.ready <==> other in s.tasks.ready) && (other in t.tasks.spawned <==> other in s.tasks.spawned))
            && id in t.tasks.joins && !t.tasks.joins[id].finished && t.tasks.joins[id].waiting.None?
            && (forall other :: other in s.tasks.joins && other != id ==>
                  other in t.tasks.joins && t.tasks.joins[other] == s.tasks.joins[other])
  {}

  /** A join is registered for whoever polled it last, until the task has finished. */
  lemma JoinIsPolled(s: State, id: TaskId, waker: Waker)
    requires id in s.tasks.joins
    ensures var t := Next(s, PollJoin(id, waker));
            && OnlyTasks(s, t) && t.tasks == s.tasks.(joins := t.tasks.joins)
            && t.tasks.joins.Keys == s.tasks.joins.Keys
            && (forall other :: other in s.tasks.joins && (other != id || s.tasks.joins[id].finished) ==>
                  t.tasks.joins[other] == s.tasks.joins[other])
            && (!s.tasks.joins[id].finished ==> t.tasks.joins[id] == Join(false, Some(waker)))
  {}

  lemma JoinIsDropped(s: State, id: TaskId)
    requires id in s.tasks.joins
    ensures var t := Next(s, DropJoin(id));
            && OnlyTasks(s, t) && t.tasks == s.tasks.(joins := t.tasks.joins)
            && t.tasks.joins.Keys == s.tasks.joins.Keys
            && (forall other :: other in s.tasks.joins && other != id ==> t.tasks.joins[other] == s.tasks.joins[other])
            && t.tasks.joins[id] == Join(s.tasks.joins[id].finished, None)
  {}

  /** A poll given back leaves nobody running. A task that finished is no longer live, is known to have finished,
      and the one task that waited for it is ready; one that did not is as it was. */
  lemma PollIsOver(s: State, finished: bool)
    requires s.tasks.running.Some?
    ensures var t, id := Next(s, EndPoll(finished)), s.tasks.running.value;
            && OnlyTasks(s, t) && t.tasks.running.None? && t.tasks.spawned == s.tasks.spawned && t.tasks.next == s.tasks.next
            && (forall other :: other in t.tasks.live <==> other in s.tasks.live && !(finished && other == id))
            && (forall other :: other in t.tasks.ready <==>
                  other in s.tasks.ready
                  || (finished && id in s.tasks.joins && s.tasks.joins[id].waiting.Some?
                      && other == s.tasks.joins[id].waiting.value.task))
            && (finished ==> id in t.tasks.joins && t.tasks.joins[id] == Join(true, None))
            && (forall other :: other in s.tasks.joins && !(finished && other == id) ==>
                  other in t.tasks.joins && t.tasks.joins[other] == s.tasks.joins[other])
  {}

  /** What a turn of the loop does: with a task ready, the lowest is polled if it is still live; with none, the
      earliest event is what the clock moves to and its task alone is made ready; and what was spawned is live
      whatever the turn. */
  lemma TurnTakes(s: State, turn: Turn)
    requires s.tasks.running.None? && Turns(s, turn)
    ensures var t, live := AfterTurn(s, turn), s.tasks.live + s.tasks.spawned;
            && t.net == s.net && t.deadlines == s.deadlines && t.homes == s.homes && t.received == s.received
            && t.timers.armed == s.timers.armed && t.timers.next == s.timers.next && t.tasks.joins == s.tasks.joins
            && t.tasks.live == live && t.tasks.spawned == {} && t.tasks.next == s.tasks.next
            && match turn
               case Poll(id) =>
                 && id in s.tasks.ready && (forall other :: other in s.tasks.ready ==> id <= other)
                 && t.tasks.ready == s.tasks.ready - {id} && t.timers == s.timers
                 && t.tasks.running == (if id in live then Some(id) else None)
               case Done => s.tasks.ready == {} && live == {} && t.timers == s.timers && t.tasks.ready == {}
               case Stalled(pending) =>
                 s.tasks.ready == {} && pending == live != {} && s.timers.queue == map[] && t.timers == s.timers
               case Fire(e) =>
                 && s.tasks.ready == {} && live != {} && e in s.timers.queue && s.timers.now <= e.at
                 && (forall f :: f in s.timers.queue && f != e ==> e.at < f.at || (e.at == f.at && e.order < f.order))
                 && t.timers.now == e.at && t.timers.queue == s.timers.queue - {e}
                 && t.tasks.ready == {s.timers.queue[e].task} && t.tasks.running.None?
               case Passed(error) =>
                 && s.tasks.ready == {} && live != {}
                 && exists e | e in s.timers.queue :: e.at < s.timers.now && error == ClockBackwards(s.timers.now, e.at)
  {}

  /** A new node is empty, is nobody else's number, and has taken nothing. */
  lemma NodeIsNew(s: State)
    ensures var t, id := Next(s, NewNode), s.net.nextNode;
            && t == s.(net := t.net) && t.net.nextNode == id + 1 && t.net.nodes == s.net.nodes[id := Inbox(map[], map[])]
            && t.net.taken == s.net.taken[id := []] && t.net.filed == s.net.filed && t.net.nextArrival == s.net.nextArrival
  {}

  /** A wait that begins has a number of its own and nothing else yet: no timer, nobody registered. */
  lemma NewWaits(s: State, id: nat, deadline: u64, node: NodeId)
    ensures Enabled(s, NewSleep(id, deadline)) ==>
              Next(s, NewSleep(id, deadline)) == s.(deadlines := s.deadlines[id := deadline])
    ensures Enabled(s, NewRecv(id, node)) ==> Next(s, NewRecv(id, node)) == s.(homes := s.homes[id := node])
  {}
}
