/** What every run of the kernel keeps, whatever its tasks do: no timer behind the clock, every timer somebody's,
    no message passed over by the clock, and deliveries in order. */
module KernelSteady {
  import opened Bytes
  import opened Clock
  import opened EventQueue
  import opened Kernel
  import opened Wrappers

  // ---------------------------------------------------------------------------------------------
  // The invariants

  predicate Holder(t: Timers, e: EventId, w: Wait) {
    w in t.armed && t.armed[w].event == e
  }

  /** No timer is behind the clock; each belongs to one wait, and no wait holds two. */
  ghost predicate Owned(t: Timers) {
    && (forall e :: e in t.queue ==> t.now <= e.at)
    && (forall w :: w in t.armed ==> t.armed[w].event.order < t.next)
    && (forall v, w :: v in t.armed && w in t.armed && t.armed[v].event == t.armed[w].event ==> v == w)
    && (forall e :: e in t.queue ==> exists w :: Holder(t, e, w))
    && (forall w :: w in t.armed && t.armed[w].event in t.queue ==> t.queue[t.armed[w].event] == t.armed[w].waker)
  }

  /** A wait that was armed still has its timer, or its instant has come. */
  predicate Timely(t: Timers) {
    forall w :: w in t.armed ==> t.armed[w].event in t.queue || t.armed[w].event.at <= t.now
  }

  /** A wait on the clock is armed for its own deadline; any armed wait is one somebody still holds. */
  ghost predicate Aimed(t: Timers, deadlines: map<nat, u64>, homes: map<nat, NodeId>) {
    forall w :: w in t.armed ==>
      match w
      case Sleeping(id) => id in deadlines && t.armed[w].event.at == deadlines[id]
      case Receiving(id) => id in homes
  }

  /** `r` has a timer at or before everything in flight to its inbox. */
  ghost predicate Covers(box: Inbox, t: Timers, r: nat) {
    && Receiving(r) in t.armed && t.armed[Receiving(r)].event in t.queue
    && forall a :: a in box.inFlight ==> t.armed[Receiving(r)].event.at <= a.at
  }

  /** Nobody has woken the wait: if it holds a timer, the timer is still to fire. */
  predicate Unwoken(t: Timers, r: nat) {
    Receiving(r) in t.armed ==> t.armed[Receiving(r)].event in t.queue
  }

  /** A wait on an inbox that nobody has woken has nothing on its way, or a timer at or before the earliest of it. */
  ghost predicate CoveredOne(box: Inbox, t: Timers, r: nat) {
    Unwoken(t, r) ==> box.inFlight == map[] || Covers(box, t, r)
  }

  ghost predicate Covered(n: Net, t: Timers, received: set<nat>) {
    forall node, r :: node in n.nodes && r in n.nodes[node].waiting && r !in received ==>
      CoveredOne(n.nodes[node], t, r)
  }

  /** Every wait registered with an inbox is on that inbox. */
  ghost predicate Placed(n: Net, homes: map<nat, NodeId>) {
    && (forall node, r :: node in n.nodes && r in n.nodes[node].waiting ==> r in homes && homes[r] == node)
    && (forall r :: r in homes ==> homes[r] in n.nodes)
  }

  ghost predicate TakenInOrder(taken: seq<EventId>) {
    forall i, j :: 0 <= i < j < |taken| ==> Earlier(taken[i], taken[j])
  }

  /** One node's messages: each is filed to it, and is in flight or was taken but not both; each taken no
      earlier than it landed, in the order they land, before anything still in flight. */
  ghost predicate InOrder(filed: map<EventId, (NodeId, Delivery)>, node: NodeId,
                          inFlight: map<EventId, Delivery>, taken: seq<EventId>, now: u64) {
    && (forall a :: a in inFlight ==> a in filed && filed[a] == (node, inFlight[a]))
    && (forall a :: a in taken ==> a in filed && filed[a].0 == node && a.at <= now)
    && (forall a :: a in filed && filed[a].0 == node ==> a in inFlight || a in taken)
    && TakenInOrder(taken)
    && (forall a, b :: a in inFlight && b in taken ==> Earlier(b, a))
  }

  ghost predicate Numbered(n: Net) {
    && n.taken.Keys == n.nodes.Keys && (forall node :: node in n.nodes ==> node < n.nextNode)
    && (forall a :: a in n.filed ==> a.order < n.nextArrival && n.filed[a].0 in n.nodes)
    && (forall a, b :: a in n.filed && b in n.filed && a.order == b.order ==> a == b)
  }

  /** Every copy filed is in flight to its node or was taken there, and only once. */
  ghost predicate Delivered(n: Net, now: u64) {
    && Numbered(n)
    && forall node :: node in n.nodes ==> InOrder(n.filed, node, n.nodes[node].inFlight, n.taken[node], now)
  }

  ghost predicate Steady(s: State) {
    && Owned(s.timers) && Timely(s.timers) && Aimed(s.timers, s.deadlines, s.homes)
    && Placed(s.net, s.homes) && Covered(s.net, s.timers, s.received) && Delivered(s.net, s.timers.now)
  }

  lemma StartSteady()
    ensures Steady(START)
  {}

  // ---------------------------------------------------------------------------------------------
  // Timers come and go

  /** From `t` to `u` nothing changed for any wait but `w`. */
  ghost predicate Spares(t: Timers, u: Timers, w: Wait) {
    && u.now == t.now
    && forall v :: v != w ==>
         && (v in u.armed <==> v in t.armed)
         && (v in t.armed ==> u.armed[v] == t.armed[v] && (t.armed[v].event in u.queue <==> t.armed[v].event in t.queue))
  }

  lemma DisarmKeeps(t: Timers, w: Wait)
    requires Owned(t)
    ensures Owned(Disarm(t, w)) && Spares(t, Disarm(t, w), w) && w !in Disarm(t, w).armed
  {
    hide Owned, Spares;
    DisarmOwned(t, w);
    DisarmSpares(t, w);
  }

  lemma DisarmSpares(t: Timers, w: Wait)
    requires Owned(t)
    ensures Spares(t, Disarm(t, w), w)
  {
    hide Holder;
  }

  lemma DisarmOwned(t: Timers, w: Wait)
    requires Owned(t)
    ensures Owned(Disarm(t, w))
  {
    hide Holder;
    forall e | e in Disarm(t, w).queue ensures exists v :: Holder(Disarm(t, w), e, v) {
      StillHeld(t, w, e);
    }
  }

  lemma StillHeld(t: Timers, w: Wait, e: EventId)
    requires e in Disarm(t, w).queue && exists v :: Holder(t, e, v)
    ensures exists v :: Holder(Disarm(t, w), e, v)
  {
    var v :| Holder(t, e, v);
    assert Holder(Disarm(t, w), e, v);
  }

  lemma ArmKeeps(t: Timers, w: Wait, at: u64, waker: Waker)
    requires Owned(t) && w !in t.armed && t.now <= at
    ensures var u := Arm(t, w, at, waker);
            && Owned(u) && Spares(t, u, w) && w in u.armed && u.armed[w].event in u.queue
            && u.armed[w].event.at == at && u.armed[w].waker == waker
  {
    var u := Arm(t, w, at, waker);
    var event := EventId(at, t.next);
    forall e | e in u.queue ensures exists v :: Holder(u, e, v) {
      if e == event {
        assert Holder(u, e, w);
      } else {
        var v :| Holder(t, e, v);
        assert Holder(u, e, v);
      }
    }
  }

  /** A wait aimed at a later instant ends up with its one timer there, whatever it held before. */
  lemma AimKeeps(t: Timers, w: Wait, at: u64, waker: Waker)
    requires Owned(t) && Timely(t) && t.now < at
    ensures var u := Aim(t, w, at, waker);
            && Owned(u) && Spares(t, u, w) && w in u.armed && u.armed[w].event in u.queue
            && u.armed[w].event.at == at && u.armed[w].waker == waker
  {
    hide Owned;
    if !AimedAt(t, w, at, waker) {
      DisarmKeeps(t, w);
      ArmKeeps(Disarm(t, w), w, at, waker);
    }
  }

  lemma TimelyFrame(t: Timers, u: Timers, w: Wait)
    requires Timely(t) && Spares(t, u, w) && (w in u.armed ==> u.armed[w].event in u.queue)
    ensures Timely(u)
  {}

  /** Inboxes but for `r`'s registration: the same, or with less in flight. */
  ghost predicate FewerInFlight(n: Net, m: Net, r: nat) {
    && m.nodes.Keys == n.nodes.Keys
    && forall node :: node in n.nodes ==>
         && m.nodes[node].inFlight.Keys <= n.nodes[node].inFlight.Keys
         && forall q :: q != r ==>
              && (q in m.nodes[node].waiting ==> q in n.nodes[node].waiting)
              && (q in m.nodes[node].waiting ==> m.nodes[node].waiting[q] == n.nodes[node].waiting[q])
  }

  lemma CoveredFrame(n: Net, m: Net, t: Timers, u: Timers, was: set<nat>, received: set<nat>, w: Wait, r: nat)
    requires Covered(n, t, was) && was - {r} <= received
    requires FewerInFlight(n, m, r) && Spares(t, u, w) && (w == Receiving(r) || w.Sleeping?)
    requires forall node :: node in m.nodes && r in m.nodes[node].waiting && r !in received ==>
               CoveredOne(m.nodes[node], u, r)
    ensures Covered(m, u, received)
  {
    forall node, q | node in m.nodes && q in m.nodes[node].waiting && q !in received
      ensures CoveredOne(m.nodes[node], u, q)
    {
      if q != r {
        assert CoveredOne(n.nodes[node], t, q);
        CoveredOneFrame(n.nodes[node], m.nodes[node], t, u, q, w);
      }
    }
  }

  lemma CoveredOneFrame(box: Inbox, after: Inbox, t: Timers, u: Timers, q: nat, w: Wait)
    requires after.inFlight.Keys <= box.inFlight.Keys
    requires CoveredOne(box, t, q) && Spares(t, u, w) && w != Receiving(q)
    ensures CoveredOne(after, u, q)
  {
    if box.inFlight == map[] {
      assert after.inFlight == map[];
    }
  }

  lemma CoveredSame(n: Net, t: Timers, u: Timers, received: set<nat>, w: Wait)
    requires Covered(n, t, received) && Spares(t, u, w) && w.Sleeping?
    ensures Covered(n, u, received)
  {
    forall node, q | node in n.nodes && q in n.nodes[node].waiting && q !in received
      ensures CoveredOne(n.nodes[node], u, q)
    {
      assert CoveredOne(n.nodes[node], t, q);
      CoveredOneFrame(n.nodes[node], n.nodes[node], t, u, q, w);
    }
  }

  lemma AimedFrame(t: Timers, u: Timers, deadlines: map<nat, u64>, homes: map<nat, NodeId>,
                   kept: map<nat, u64>, places: map<nat, NodeId>, w: Wait)
    requires Aimed(t, deadlines, homes) && Spares(t, u, w)
    requires forall id :: id in deadlines && w != Sleeping(id) ==> id in kept && kept[id] == deadlines[id]
    requires forall id :: id in homes && w != Receiving(id) ==> id in places
    requires w in u.armed ==>
               match w
               case Sleeping(id) => id in kept && u.armed[w].event.at == kept[id]
               case Receiving(id) => id in places
    ensures Aimed(u, kept, places)
  {}

  lemma SparesNow(t: Timers, u: Timers, w: Wait)
    requires Spares(t, u, w)
    ensures u.now == t.now
  {}

  // ---------------------------------------------------------------------------------------------
  // Each step keeps the invariants

  lemma PollSleepSteady(s: State, id: nat, waker: Waker)
    requires Steady(s) && id in s.deadlines
    ensures Steady(SleepPolled(s, id, waker))
  {
    hide Owned, Timely, Covered, Delivered, Aimed, Spares, Placed, Aim, Disarm;
    var u := SleepPolled(s, id, waker);
    var w := Sleeping(id);
    if SleepOver(s, id) {
      DisarmKeeps(s.timers, w);
    } else {
      AimKeeps(s.timers, w, s.deadlines[id], waker);
    }
    SparesNow(s.timers, u.timers, w);
    TimelyFrame(s.timers, u.timers, w);
    AimedFrame(s.timers, u.timers, s.deadlines, s.homes, s.deadlines, s.homes, w);
    CoveredSame(s.net, s.timers, u.timers, s.received, w);
  }

  lemma DropSleepSteady(s: State, id: nat)
    requires Steady(s) && id in s.deadlines
    ensures Steady(SleepDropped(s, id))
  {
    hide Owned, Timely, Covered, Delivered, Aimed, Spares, Placed, Disarm;
    var u := SleepDropped(s, id);
    var w := Sleeping(id);
    DisarmKeeps(s.timers, w);
    SparesNow(s.timers, u.timers, w);
    TimelyFrame(s.timers, u.timers, w);
    AimedFrame(s.timers, u.timers, s.deadlines, s.homes, u.deadlines, s.homes, w);
    CoveredSame(s.net, s.timers, u.timers, s.received, w);
  }

  lemma TakenInOrderMore(taken: seq<EventId>, a: EventId)
    requires TakenInOrder(taken) && forall b :: b in taken ==> Earlier(b, a)
    ensures TakenInOrder(taken + [a])
  {
    forall i, j | 0 <= i < j < |taken + [a]| ensures Earlier((taken + [a])[i], (taken + [a])[j]) {
      assert taken[i] in taken;
    }
  }

  lemma TakenInOrderOf(filed: map<EventId, (NodeId, Delivery)>, node: NodeId, inFlight: map<EventId, Delivery>,
                       taken: seq<EventId>, now: u64, a: EventId)
    requires InOrder(filed, node, inFlight, taken, now) && IsEarliest(inFlight, a) && a.at <= now
    ensures InOrder(filed, node, inFlight - {a}, taken + [a], now)
  {
    TakenInOrderMore(taken, a);
  }

  lemma TakenDelivered(n: Net, now: u64, node: NodeId, a: EventId)
    requires Delivered(n, now) && node in n.nodes && node in n.taken && Landed(n.nodes[node], now, a)
    ensures Delivered(Taken(n, node, a), now)
  {
    hide InOrder;
    var m := Taken(n, node, a);
    TakenInOrderOf(n.filed, node, n.nodes[node].inFlight, n.taken[node], now, a);
    assert m.taken.Keys == n.taken.Keys && m.nodes.Keys == n.nodes.Keys;
  }

  lemma TakenFewer(n: Net, homes: map<nat, NodeId>, node: NodeId, a: EventId, id: nat)
    requires node in n.nodes && node in n.taken && Placed(n, homes)
    ensures FewerInFlight(n, Taken(n, node, a), id) && Placed(Taken(n, node, a), homes)
  {}

  lemma ReceivedSteady(s: State, id: nat, a: EventId)
    requires id in s.homes && s.homes[id] in s.net.nodes && s.homes[id] in s.net.taken
    requires Steady(s) && Landed(s.net.nodes[s.homes[id]], s.timers.now, a)
    ensures Steady(ReceivedFrom(s, id, a))
  {
    hide Owned, Timely, Covered, CoveredOne, Delivered, IsEarliest, Landed, Aimed, Spares, Placed, Disarm, FewerInFlight, Taken;
    var node := s.homes[id];
    var u := ReceivedFrom(s, id, a);
    var w := Receiving(id);
    DisarmKeeps(s.timers, w);
    SparesNow(s.timers, u.timers, w);
    TimelyFrame(s.timers, u.timers, w);
    AimedFrame(s.timers, u.timers, s.deadlines, s.homes, s.deadlines, s.homes, w);
    TakenDelivered(s.net, s.timers.now, node, a);
    TakenFewer(s.net, s.homes, node, a, id);
    CoveredFrame(s.net, u.net, s.timers, u.timers, s.received, u.received, w, id);
  }

  /** An inbox with `r` registered, or not. */
  function Registered(n: Net, node: NodeId, r: nat, waker: Option<Waker>): Net
    requires node in n.nodes
  {
    var box := n.nodes[node];
    var waiting := match waker
      case Some(w) => box.waiting[r := w]
      case None => box.waiting - {r};
    n.(nodes := n.nodes[node := box.(waiting := waiting)])
  }

  lemma RegisteredKeeps(n: Net, homes: map<nat, NodeId>, now: u64, node: NodeId, r: nat, waker: Option<Waker>)
    requires node in n.nodes && r in homes && homes[r] == node && Placed(n, homes) && Delivered(n, now)
    ensures var m := Registered(n, node, r, waker);
            FewerInFlight(n, m, r) && Delivered(m, now) && (if waker.None? then Placed(m, homes - {r}) else Placed(m, homes))
  {
    hide Delivered, FewerInFlight, Placed;
    RegisteredFewer(n, node, r, waker);
    RegisteredPlaced(n, homes, node, r, waker);
    RegisteredDelivered(n, Registered(n, node, r, waker), now);
  }

  lemma RegisteredPlaced(n: Net, homes: map<nat, NodeId>, node: NodeId, r: nat, waker: Option<Waker>)
    requires node in n.nodes && r in homes && homes[r] == node && Placed(n, homes)
    ensures Placed(Registered(n, node, r, waker), if waker.None? then homes - {r} else homes)
  {
    var m := Registered(n, node, r, waker);
    forall other, q | other in m.nodes && q in m.nodes[other].waiting ensures q in homes && homes[q] == other {
      if !(other == node && q == r) { assert q in n.nodes[other].waiting; }
    }
    if waker.None? {
      forall other | other in m.nodes ensures r !in m.nodes[other].waiting {
        if other != node { assert m.nodes[other] == n.nodes[other]; }
      }
    }
  }

  lemma RegisteredFewer(n: Net, node: NodeId, r: nat, waker: Option<Waker>)
    requires node in n.nodes
    ensures FewerInFlight(n, Registered(n, node, r, waker), r)
  {}

  lemma OnlyPlaced(n: Net, homes: map<nat, NodeId>, node: NodeId, r: nat)
    requires Placed(n, homes) && r in homes && homes[r] == node
    ensures forall other :: other in n.nodes && r in n.nodes[other].waiting ==> other == node
  {}

  /** What is delivered does not depend on who is waiting for it. */
  lemma RegisteredDelivered(n: Net, m: Net, now: u64)
    requires Delivered(n, now) && m.nodes.Keys == n.nodes.Keys
    requires m == n.(nodes := m.nodes)
    requires forall node :: node in n.nodes ==> m.nodes[node].inFlight == n.nodes[node].inFlight
    ensures Delivered(m, now)
  {}

  lemma NowCovered(u: State, node: NodeId, r: nat, earliest: Option<EventId>)
    requires node in u.net.nodes
    requires match earliest
             case None => u.net.nodes[node].inFlight == map[]
             case Some(a) =>
               && IsEarliest(u.net.nodes[node].inFlight, a)
               && Receiving(r) in u.timers.armed && u.timers.armed[Receiving(r)].event in u.timers.queue
               && u.timers.armed[Receiving(r)].event.at == a.at
    ensures CoveredOne(u.net.nodes[node], u.timers, r)
  {}

  lemma StillReceivingSteady(s: State, id: nat, earliest: Option<EventId>, waker: Waker)
    requires Steady(s) && Enabled(s, PollRecv(id, earliest, waker))
    requires earliest.Some? ==> s.timers.now < earliest.value.at
    ensures Steady(StillReceiving(s, id, earliest, waker))
  {
    hide Owned, Timely, Covered, CoveredOne, Delivered, Aimed, Spares, Placed, Disarm, Aim, FewerInFlight;
    var u := StillReceiving(s, id, earliest, waker);
    var w := Receiving(id);
    var node := s.homes[id];
    match earliest {
      case None => DisarmKeeps(s.timers, w);
      case Some(a) => AimKeeps(s.timers, w, a.at, waker);
    }
    SparesNow(s.timers, u.timers, w);
    TimelyFrame(s.timers, u.timers, w);
    AimedFrame(s.timers, u.timers, s.deadlines, s.homes, s.deadlines, s.homes, w);
    RegisteredKeeps(s.net, s.homes, s.timers.now, node, id, Some(waker));
    assert u.net == Registered(s.net, node, id, Some(waker));
    NowCovered(u, node, id, earliest);
    OnlyPlaced(u.net, u.homes, node, id);
    CoveredFrame(s.net, u.net, s.timers, u.timers, s.received, u.received, w, id);
  }

  lemma Unplaced(n: Net, homes: map<nat, NodeId>, r: nat)
    requires Placed(n, homes) && r !in homes
    ensures forall node :: node in n.nodes ==> r !in n.nodes[node].waiting
  {}

  lemma DropRecvSteady(s: State, id: nat)
    requires Steady(s) && id in s.homes && s.homes[id] in s.net.nodes
    ensures Steady(RecvDropped(s, id))
  {
    hide Owned, Timely, Covered, CoveredOne, Delivered, Aimed, Spares, Placed, Disarm, FewerInFlight;
    var u := RecvDropped(s, id);
    var w := Receiving(id);
    var node := s.homes[id];
    DisarmKeeps(s.timers, w);
    SparesNow(s.timers, u.timers, w);
    TimelyFrame(s.timers, u.timers, w);
    AimedFrame(s.timers, u.timers, s.deadlines, s.homes, s.deadlines, u.homes, w);
    RegisteredKeeps(s.net, s.homes, s.timers.now, node, id, None);
    assert u.net == Registered(s.net, node, id, None);
    Unplaced(u.net, u.homes, id);
    CoveredFrame(s.net, u.net, s.timers, u.timers, s.received, u.received, w, id);
  }

  lemma FiledInOrder(filed: map<EventId, (NodeId, Delivery)>, node: NodeId, inFlight: map<EventId, Delivery>,
                     taken: seq<EventId>, now: u64, a: EventId, to: NodeId, delivery: Delivery)
    requires InOrder(filed, node, inFlight, taken, now) && now <= a.at && a !in filed
    requires forall b :: b in filed ==> b.order < a.order
    ensures InOrder(filed[a := (to, delivery)], node, if node == to then inFlight[a := delivery] else inFlight, taken, now)
  {}

  lemma FiledDelivered(n: Net, now: u64, to: NodeId, at: u64, delivery: Delivery)
    requires Delivered(n, now) && now <= at
    ensures Delivered(Filed(n, to, at, delivery), now)
  {
    hide InOrder;
    var m := Filed(n, to, at, delivery);
    var a := EventId(at, n.nextArrival);
    assert a !in n.filed;
    if to in n.nodes {
      assert m.nodes.Keys == n.nodes.Keys;
      forall node | node in m.nodes ensures InOrder(m.filed, node, m.nodes[node].inFlight, m.taken[node], now) {
        FiledInOrder(n.filed, node, n.nodes[node].inFlight, n.taken[node], now, a, to, delivery);
      }
    }
  }

  /** As many waiting at every node, and every other node's inbox as it was. */
  ghost predicate OnlyFiled(n: Net, m: Net, to: NodeId) {
    && m.nodes.Keys == n.nodes.Keys
    && (forall node :: node in n.nodes ==> m.nodes[node].waiting == n.nodes[node].waiting)
    && (forall node :: node in n.nodes && node != to ==> m.nodes[node] == n.nodes[node])
  }

  lemma FiledOnly(n: Net, to: NodeId, at: u64, delivery: Delivery)
    ensures OnlyFiled(n, Filed(n, to, at, delivery), to)
  {}

  lemma OnlyFiledTrans(n: Net, m: Net, o: Net, to: NodeId)
    requires OnlyFiled(n, m, to) && OnlyFiled(m, o, to)
    ensures OnlyFiled(n, o, to)
  {}

  lemma {:induction false} AllFiledDelivered(n: Net, now: u64, to: NodeId, delays: seq<nat>, delivery: Delivery)
    requires Delivered(n, now)
    ensures Delivered(AllFiled(n, to, now, delays, delivery), now)
    ensures OnlyFiled(n, AllFiled(n, to, now, delays, delivery), to)
  {
    if delays != [] {
      hide Delivered, Filed, OnlyFiled;
      var last := |delays| - 1;
      var m := AllFiled(n, to, now, delays[..last], delivery);
      AllFiledDelivered(n, now, to, delays[..last], delivery);
      FiledDelivered(m, now, to, Later(now, delays[last]), delivery);
      FiledOnly(m, to, Later(now, delays[last]), delivery);
      OnlyFiledTrans(n, m, Filed(m, to, Later(now, delays[last]), delivery), to);
    }
  }

  lemma ClearedBox(n: Net, m: Net, to: NodeId, node: NodeId)
    requires OnlyFiled(n, m, to)
    ensures node in Cleared(m, to).nodes <==> node in n.nodes
    ensures node in n.nodes && node == to ==> Cleared(m, to).nodes[node].waiting == map[]
    ensures node in n.nodes && node != to ==> Cleared(m, to).nodes[node] == n.nodes[node]
  {}

  lemma ClearedPlaced(n: Net, m: Net, homes: map<nat, NodeId>, to: NodeId)
    requires OnlyFiled(n, m, to) && Placed(n, homes)
    ensures Placed(Cleared(m, to), homes)
  {
    hide OnlyFiled, Cleared;
    var u := Cleared(m, to);
    forall node, r | node in u.nodes && r in u.nodes[node].waiting ensures r in homes && homes[r] == node {
      ClearedBox(n, m, to, node);
    }
    forall r | r in homes ensures homes[r] in u.nodes {
      ClearedBox(n, m, to, homes[r]);
    }
  }

  lemma ClearedDelivered(m: Net, now: u64, to: NodeId)
    requires Delivered(m, now)
    ensures Delivered(Cleared(m, to), now)
  {
    hide Delivered;
    RegisteredDelivered(m, Cleared(m, to), now);
  }

  lemma ClearedCovered(n: Net, m: Net, to: NodeId, t: Timers, received: set<nat>)
    requires OnlyFiled(n, m, to) && Covered(n, t, received)
    ensures Covered(Cleared(m, to), t, received)
  {
    hide CoveredOne, OnlyFiled, Cleared;
    var u := Cleared(m, to);
    forall node, r | node in u.nodes && r in u.nodes[node].waiting && r !in received
      ensures CoveredOne(u.nodes[node], t, r)
    {
      ClearedBox(n, m, to, node);
      assert CoveredOne(n.nodes[node], t, r);
    }
  }

  lemma SendSteady(s: State, to: NodeId, delays: seq<nat>, delivery: Delivery)
    requires Steady(s)
    ensures Steady(Sent(s, to, delays, delivery))
  {
    hide OnlyFiled, AllFiled, Owned, Timely, Delivered, Covered, Placed, Aimed, Cleared, Woken;
    if delays != [] {
      var m := AllFiled(s.net, to, s.timers.now, delays, delivery);
      AllFiledDelivered(s.net, s.timers.now, to, delays, delivery);
      ClearedDelivered(m, s.timers.now, to);
      ClearedPlaced(s.net, m, s.homes, to);
      ClearedCovered(s.net, m, to, s.timers, s.received);
    }
  }

  lemma NewNodeDelivered(n: Net, now: u64)
    requires Delivered(n, now)
    ensures Delivered(NodeAdded(n), now) && n.nextNode !in n.nodes
  {
    var m := NodeAdded(n);
    assert n.nextNode !in n.nodes;
    assert m.taken.Keys == m.nodes.Keys;
    forall node | node in m.nodes ensures InOrder(m.filed, node, m.nodes[node].inFlight, m.taken[node], now) {
      if node != n.nextNode { assert InOrder(n.filed, node, n.nodes[node].inFlight, n.taken[node], now); }
    }
  }

  lemma NewNodeSteady(s: State)
    requires Steady(s)
    ensures Steady(s.(net := NodeAdded(s.net)))
  {
    hide Owned, Timely, Delivered, Aimed, CoveredOne;
    var u := s.(net := NodeAdded(s.net));
    NewNodeDelivered(s.net, s.timers.now);
    forall node, r | node in u.net.nodes && r in u.net.nodes[node].waiting && r !in u.received
      ensures CoveredOne(u.net.nodes[node], u.timers, r)
    {
      assert CoveredOne(s.net.nodes[node], s.timers, r);
    }
  }

  // ---------------------------------------------------------------------------------------------
  // The run loop

  lemma AimedLater(t: Timers, deadlines: map<nat, u64>, homes: map<nat, NodeId>, e: EventId)
    requires Aimed(t, deadlines, homes)
    ensures Aimed(t.(now := e.at, queue := t.queue - {e}), deadlines, homes)
  {}

  lemma NoneBefore(queue: map<EventId, Waker>, e: EventId)
    requires IsEarliest(queue, e)
    ensures forall f :: f in queue ==> e.at <= f.at
  {}

  lemma FireOwned(t: Timers, e: EventId)
    requires Owned(t) && IsEarliest(t.queue, e)
    ensures Owned(t.(now := e.at, queue := t.queue - {e}))
  {
    NoneBefore(t.queue, e);
    hide IsEarliest;
    var u := t.(now := e.at, queue := t.queue - {e});
    forall f | f in u.queue ensures exists w :: Holder(u, f, w) {
      var w :| Holder(t, f, w);
      assert Holder(u, f, w);
    }
    assert forall w :: w in u.armed && u.armed[w].event in u.queue ==> u.queue[u.armed[w].event] == u.armed[w].waker;
  }

  lemma LaterDelivered(n: Net, now: u64, later: u64)
    requires Delivered(n, now) && now <= later
    ensures Delivered(n, later)
  {
    forall node | node in n.nodes ensures InOrder(n.filed, node, n.nodes[node].inFlight, n.taken[node], later) {
      assert InOrder(n.filed, node, n.nodes[node].inFlight, n.taken[node], now);
    }
  }

  lemma FireTimely(t: Timers, e: EventId)
    requires Timely(t) && t.now <= e.at
    ensures Timely(t.(now := e.at, queue := t.queue - {e}))
  {}

  lemma FireCovered(n: Net, t: Timers, received: set<nat>, e: EventId)
    requires Covered(n, t, received)
    ensures Covered(n, t.(now := e.at, queue := t.queue - {e}), received)
  {
    var u := t.(now := e.at, queue := t.queue - {e});
    forall node, r | node in n.nodes && r in n.nodes[node].waiting && r !in received
      ensures CoveredOne(n.nodes[node], u, r)
    {
      assert CoveredOne(n.nodes[node], t, r);
    }
  }

  lemma FireSteady(s: State, e: EventId)
    requires Steady(s) && IsEarliest(s.timers.queue, e)
    ensures s.timers.now <= e.at && Steady(Fired(s, e))
  {
    hide Delivered, Placed, Timely, Covered, Aimed;
    FireOwned(s.timers, e);
    FireTimely(s.timers, e);
    FireCovered(s.net, s.timers, s.received, e);
    LaterDelivered(s.net, s.timers.now, e.at);
    AimedLater(s.timers, s.deadlines, s.homes, e);
  }

  lemma TurnSteady(s: State, turn: Turn)
    requires Steady(s) && Turns(s, turn)
    ensures !turn.Passed? && Steady(AfterTurn(s, turn))
  {
    hide Steady, Fired, IsEarliest;
    match turn
    case Fire(e) => FireSteady(s, e);
    case Passed(_) => NeverBackwards(s, turn);
    case Poll(id) => TasksSteady(s, Begun(s.tasks, id));
    case _ => TasksSteady(s, Adopted(s.tasks));
  }

  /** The loop never asks the clock to move backwards. */
  lemma NeverBackwards(s: State, turn: Turn)
    requires Steady(s) && Turns(s, turn)
    ensures !turn.Passed?
  {
    hide Timely, Aimed, Placed, Covered, Delivered;
  }

  /** None of this is about which tasks there are or what they are up to. */
  lemma TasksSteady(s: State, l: Tasks)
    requires Steady(s)
    ensures Steady(s.(tasks := l))
  {
    hide Owned, Timely, Aimed, Placed, Covered, Delivered;
  }

  lemma NewWaitSteady(s: State, step: Step)
    requires Steady(s) && Enabled(s, step) && (step.NewSleep? || step.NewRecv?)
    ensures Steady(Next(s, step))
  {
    hide Owned, Timely, Covered, Delivered;
  }

  /** Every step keeps every one of these, whatever task takes it. */
  lemma StepSteady(s: State, step: Step)
    requires Steady(s) && Enabled(s, step)
    ensures Steady(Next(s, step))
  {
    hide Steady, SleepPolled, SleepDropped, ReceivedFrom, StillReceiving, RecvDropped, Sent, NodeAdded, Turns;
    match step
    case RunLoop(turn) => TurnSteady(s, turn);
    case EndPoll(finished) => TasksSteady(s, Ended(s.tasks, finished));
    case Spawn => TasksSteady(s, Spawned(s.tasks));
    case PollJoin(id, waker) => TasksSteady(s, JoinPolled(s.tasks, id, waker));
    case DropJoin(id) => TasksSteady(s, JoinDropped(s.tasks, id));
    case PollSleep(id, waker) => PollSleepSteady(s, id, waker);
    case DropSleep(id) => DropSleepSteady(s, id);
    case NewNode => NewNodeSteady(s);
    case PollRecv(id, earliest, waker) =>
      if earliest.Some? && earliest.value.at <= s.timers.now { ReceivedSteady(s, id, earliest.value); }
      else { StillReceivingSteady(s, id, earliest, waker); }
    case DropRecv(id) => DropRecvSteady(s, id);
    case Send(to, delays, delivery) => SendSteady(s, to, delays, delivery);
    case _ => NewWaitSteady(s, step);
  }

  lemma {:induction false} RunSteady(states: seq<State>, steps: seq<Step>, i: nat)
    requires Runs(states, steps) && Steady(states[0]) && i < |states|
    ensures Steady(states[i])
  {
    hide Steady, Enabled, Next;
    if i > 0 {
      RunSteady(states, steps, i - 1);
      assert Enabled(states[i - 1], steps[i - 1]) && states[i] == Next(states[i - 1], steps[i - 1]);
      StepSteady(states[i - 1], steps[i - 1]);
    }
  }

  // ---------------------------------------------------------------------------------------------
  // What the invariants come to

  /** No run from the start ever fails for its clock: armed by its waits alone, it is never asked to move
      backwards. */
  lemma NoRunFails(states: seq<State>, steps: seq<Step>, i: nat)
    requires Runs(states, steps) && states[0] == START && i < |steps|
    ensures steps[i].RunLoop? ==> !steps[i].turn.Passed?
  {
    hide Steady, Next;
    StartSteady();
    RunSteady(states, steps, i);
    assert Enabled(states[i], steps[i]);
    if steps[i].RunLoop? {
      TurnSteady(states[i], steps[i].turn);
    }
  }

  /** The clock never passes a message somebody is waiting for and nobody has woken them for: the instant it
      moves to is no later than the earliest arrival at any inbox with such a wait registered. */
  lemma NeverPassesAMessage(s: State, e: EventId, node: NodeId, r: nat, a: EventId)
    requires Steady(s) && Turns(s, Fire(e))
    requires node in s.net.nodes && r in s.net.nodes[node].waiting && r !in s.received && Unwoken(s.timers, r)
    requires a in s.net.nodes[node].inFlight
    ensures e.at <= a.at
  {
    hide Owned, Timely, Aimed, Placed, Delivered;
    assert IsEarliest(s.timers.queue, e);
    assert CoveredOne(s.net.nodes[node], s.timers, r);
    EarliestCovers(s.net.nodes[node], s.timers, r, e, a);
  }

  lemma EarliestCovers(box: Inbox, t: Timers, r: nat, e: EventId, a: EventId)
    requires Covers(box, t, r) && IsEarliest(t.queue, e) && a in box.inFlight
    ensures e.at <= a.at
  {}

  lemma NodeInOrder(n: Net, now: u64, node: NodeId)
    requires Delivered(n, now) && node in n.nodes
    ensures node in n.taken && TakenInOrder(n.taken[node])
    ensures forall a :: a in n.taken[node] ==> a.at <= now && a !in n.nodes[node].inFlight
    ensures forall a :: a in n.filed && n.filed[a].0 == node ==>
              (a in n.taken[node] <==> a !in n.nodes[node].inFlight)
  {
    assert InOrder(n.filed, node, n.nodes[node].inFlight, n.taken[node], now);
    hide Delivered;
    TakenNotInFlight(n.filed, node, n.nodes[node].inFlight, n.taken[node], now);
  }

  lemma TakenNotInFlight(filed: map<EventId, (NodeId, Delivery)>, node: NodeId, inFlight: map<EventId, Delivery>,
                         taken: seq<EventId>, now: u64)
    requires InOrder(filed, node, inFlight, taken, now)
    ensures forall a :: a in taken ==> a.at <= now && a !in inFlight
    ensures forall a :: a in filed && filed[a].0 == node ==> (a in taken <==> a !in inFlight)
  {}

  /** However a run goes, every node has taken its messages in the order they landed, none early and
      none twice, and whatever was sent to it and not taken is still on its way. */
  lemma DeliveredInOrder(states: seq<State>, steps: seq<Step>, i: nat, node: NodeId)
    requires Runs(states, steps) && states[0] == START && i < |states| && node in states[i].net.nodes
    ensures node in states[i].net.taken
    ensures var taken, now := states[i].net.taken[node], states[i].timers.now;
            && (forall j, k :: 0 <= j < k < |taken| ==> Earlier(taken[j], taken[k]))
            && (forall a :: a in taken ==> a.at <= now && a !in states[i].net.nodes[node].inFlight)
            && (forall a :: a in states[i].net.filed && states[i].net.filed[a].0 == node ==>
                  (a in taken <==> a !in states[i].net.nodes[node].inFlight))
  {
    hide Owned, Timely, Aimed, Placed, Covered, Delivered, Runs;
    StartSteady();
    RunSteady(states, steps, i);
    NodeInOrder(states[i].net, states[i].timers.now, node);
  }
}
