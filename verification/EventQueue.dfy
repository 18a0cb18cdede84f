/** The queue of future events: earliest first, and in the order they were pushed when two share an
    instant. */
module EventQueue {
  import opened Bytes
  import opened Wrappers

  /** One scheduled event: when it is due, and the order it was pushed in. */
  datatype EventId = EventId(at: u64, order: nat)

  predicate Earlier(a: EventId, b: EventId) {
    a.at < b.at || (a.at == b.at && a.order < b.order)
  }

  ghost predicate IsEarliest<T>(m: map<EventId, T>, e: EventId) {
    e in m && forall f :: f in m && f != e ==> Earlier(e, f)
  }

  /** The earliest key of a map kept in the order of its keys, if it has any. */
  method Earliest<T(==)>(m: map<EventId, T>) returns (first: Option<EventId>)
    ensures first.None? <==> m == map[]
    ensures first.Some? ==> IsEarliest(m, first.value)
  {
    if m == map[] {
      return None;
    }
    var todo := m.Keys;
    var e :| e in todo;
    todo := todo - {e};
    while todo != {}
      invariant e in m && e !in todo && todo <= m.Keys
      invariant forall f :: f in m && f != e && f !in todo ==> Earlier(e, f)
      decreases |todo|
    {
      var f :| f in todo;
      todo := todo - {f};
      if Earlier(f, e) {
        e := f;
      }
    }
    return Some(e);
  }

  datatype Scheduled<E> = Scheduled(at: u64, event: E)

  class EventQueue<E(==)> {
    var pending: map<EventId, E>
    var next: nat

    /** No event waiting was pushed later than any pushed so far. */
    ghost predicate Valid()
      reads this
    {
      forall e :: e in pending ==> e.order < next
    }

    constructor ()
      ensures Valid() && pending == map[] && next == 0
    {
      pending, next := map[], 0;
    }

    /** Schedules `event` for `at`. Its name is no other event's, waiting or gone. */
    method Push(at: u64, event: E) returns (id: EventId)
      requires Valid()
      modifies this
      ensures Valid() && next == old(next) + 1
      ensures id == EventId(at, old(next)) && id !in old(pending)
      ensures pending == old(pending)[id := event]
    {
      id := EventId(at, next);
      pending := pending[id := event];
      next := next + 1;
    }

    /** Takes the earliest event out, if there is one: the first pushed of those at the first instant. */
    method Pop() returns (first: Option<Scheduled<E>>, id: EventId)
      requires Valid()
      modifies this`pending
      ensures Valid()
      ensures first.None? <==> old(pending) == map[]
      ensures first.None? ==> pending == old(pending)
      ensures first.Some? ==>
                && IsEarliest(old(pending), id) && pending == old(pending) - {id}
                && first.value == Scheduled(id.at, old(pending)[id])
                && forall other :: other in old(pending) && other != id ==>
                     id.at < other.at || (id.at == other.at && id.order < other.order)
    {
      id := EventId(0, 0);
      var e := Earliest(pending);
      if e.None? {
        return None, id;
      }
      id := e.value;
      first := Some(Scheduled(e.value.at, pending[e.value]));
      pending := pending - {e.value};
    }

    /** Takes the event called `id` back out. One already gone is left alone. */
    method Cancel(id: EventId) returns (event: Option<E>)
      requires Valid()
      modifies this`pending
      ensures Valid() && pending == old(pending) - {id}
      ensures event == if id in old(pending) then Some(old(pending)[id]) else None
    {
      event := if id in pending then Some(pending[id]) else None;
      pending := pending - {id};
    }
  }
}
