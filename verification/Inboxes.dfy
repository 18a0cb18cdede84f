/** Every node's inbox, changed in place: messages filed to land later, and whoever waits for them. */
module Inboxes {
  import opened Bytes
  import opened Clock
  import opened EventQueue
  import opened Kernel
  import opened Wrappers

  /** The fate of one send: no copy, one, or two, and when each is to land. */
  datatype OnWire = Nothing | Once(at: u64) | Twice(first: u64, second: u64)

  /** The answers a generator gives a send, in the order they are drawn: whether it is lost, the delay,
      whether it is said twice, and the duplicate's own delay. */
  datatype Draws = Draws(lost: bool, delay: nat, duplicated: bool, again: nat)

  /** A partition is asked about before anything is drawn, and a message lost draws no delay. */
  function OnTheWire(partitioned: bool, draws: Draws, now: u64): OnWire {
    if partitioned || draws.lost then Nothing
    else if draws.duplicated then Twice(Later(now, draws.delay), Later(now, draws.again))
    else Once(Later(now, draws.delay))
  }

  /** The delays of the copies a send put on the wire. */
  function Copies(partitioned: bool, draws: Draws): seq<nat> {
    if partitioned || draws.lost then []
    else if draws.duplicated then [draws.delay, draws.again]
    else [draws.delay]
  }

  class Inboxes {
    var nodes: map<NodeId, Inbox>
    var nextNode: NodeId
    var nextArrival: nat
    ghost var filed: map<EventId, (NodeId, Delivery)>
    ghost var taken: map<NodeId, seq<EventId>>

    ghost function View(): Net
      reads this
    {
      Net(nodes, nextNode, nextArrival, filed, taken)
    }

    constructor ()
      ensures View() == START.net
    {
      nodes, nextNode, nextArrival, filed, taken := map[], 0, 0, map[], map[];
    }

    method Add() returns (id: NodeId)
      modifies this
      ensures id == old(nextNode) && View() == NodeAdded(old(View()))
    {
      id := nextNode;
      nodes := nodes[id := EMPTY];
      taken := taken[id := []];
      nextNode := nextNode + 1;
    }

    /** One copy more in flight and filed, under a number of its own; for a node there is not, only the number is used. */
    method File(to: NodeId, at: u64, delivery: Delivery)
      modifies this
      ensures View() == Filed(old(View()), to, at, delivery)
    {
      var a := EventId(at, nextArrival);
      nextArrival := nextArrival + 1;
      if to in nodes {
        nodes := nodes[to := nodes[to].(inFlight := nodes[to].inFlight[a := delivery])];
        filed := filed[a := (to, delivery)];
      }
    }

    /** Hands over the first of what has landed and nothing else; nothing at all exactly when none has. */
    method TakeLanded(node: NodeId, now: u64) returns (r: Option<Delivery>, ghost a: EventId)
      requires node in nodes && node in taken
      modifies this
      ensures r.None? ==> View() == old(View()) && forall b :: b in nodes[node].inFlight ==> now < b.at
      ensures r.Some? ==>
                && Landed(old(nodes)[node], now, a) && r.value == old(nodes)[node].inFlight[a]
                && View() == Taken(old(View()), node, a)
    {
      a := EventId(0, 0);
      var earliest := Earliest(nodes[node].inFlight);
      if earliest.None? {
        return None, a;
      }
      if earliest.value.at > now {
        return None, a;
      }
      a := earliest.value;
      r := Some(nodes[node].inFlight[earliest.value]);
      nodes := nodes[node := nodes[node].(inFlight := nodes[node].inFlight - {earliest.value})];
      taken := taken[node := taken[node] + [a]];
    }

    /** The least arrival instant in flight, and none exactly when nothing is. */
    method NextLanding(node: NodeId) returns (at: Option<u64>, ghost a: EventId)
      requires node in nodes
      ensures at.None? <==> nodes[node].inFlight == map[]
      ensures at.Some? ==> IsEarliest(nodes[node].inFlight, a) && at.value == a.at
    {
      a := EventId(0, 0);
      var earliest := Earliest(nodes[node].inFlight);
      if earliest.None? {
        return None, a;
      }
      return Some(earliest.value.at), earliest.value;
    }

    method Register(node: NodeId, id: nat, waker: Waker)
      requires node in nodes
      modifies this
      ensures View() == old(View()).(nodes := old(nodes)[node := old(nodes)[node].(waiting := old(nodes)[node].waiting[id := waker])])
    {
      nodes := nodes[node := nodes[node].(waiting := nodes[node].waiting[id := waker])];
    }

    method Unregister(node: NodeId, id: nat)
      requires node in nodes
      modifies this
      ensures View() == old(View()).(nodes := old(nodes)[node := old(nodes)[node].(waiting := old(nodes)[node].waiting - {id})])
    {
      nodes := nodes[node := nodes[node].(waiting := nodes[node].waiting - {id})];
    }

    /** Afterwards nobody waits at `node`, and whoever did is returned. */
    method TakeWaiting(node: NodeId) returns (waiting: map<nat, Waker>)
      modifies this
      ensures waiting == Waiting(old(View()), node)
      ensures View() == Cleared(old(View()), node)
    {
      if node !in nodes {
        return map[];
      }
      waiting := nodes[node].waiting;
      nodes := nodes[node := nodes[node].(waiting := map[])];
    }
  }
}
