/** The server's own state: the replicas it holds, and the table of when each moves on. */
module ReconcilerServer {
  import opened Reconciler
  import opened Clock
  import Bytes
  import opened Wrappers

  /** What exists, changed in place. */
  class Observed {
    var replicas: map<Key, Replica>
    var lost: set<Name>

    function Holds(): State
      reads this
    {
      State(replicas, lost)
    }

    constructor ()
      ensures Holds() == NOTHING
    {
      replicas, lost := map[], {};
    }

    method StepDown(database: Name)
      modifies this
      ensures lost == old(lost)
      ensures replicas == map key | key in old(replicas) ::
                if key.0 == database && old(replicas)[key].role == Primary
                then old(replicas)[key].(role := Standby) else old(replicas)[key]
    {
      var todo := replicas.Keys;
      while todo != {}
        invariant todo <= replicas.Keys == old(replicas).Keys
        invariant lost == old(lost)
        invariant forall key :: key in todo ==> replicas[key] == old(replicas)[key]
        invariant forall key :: key in replicas && key !in todo ==>
                    (replicas[key] == if key.0 == database && old(replicas)[key].role == Primary
                                      then old(replicas)[key].(role := Standby) else old(replicas)[key])
        decreases |todo|
      {
        var key :| key in todo;
        if key.0 == database && replicas[key].role == Primary {
          replicas := replicas[key := replicas[key].(role := Standby)];
        }
        todo := todo - {key};
      }
    }

    /** Carries out `action`, answering whether anything changed. */
    method Apply(action: Action) returns (changed: bool)
      modifies this
      ensures Holds() == After(old(Holds()), action)
      ensures changed <==> Holds() != old(Holds())
      ensures changed <==> Fits(old(Holds()), action)
    {
      FitsIffChanges(Holds(), action);
      match action
      case Create(database, region, role) =>
        if (database, region) in replicas || (role == Primary && HasPrimary(Holds(), database)) {
          return false;
        }
        replicas := replicas[(database, region) := Replica(role, Provisioning)];
        return true;
      case Promote(database, region) =>
        if !InSync(Holds(), (database, region)) {
          return false;
        }
        StepDown(database);
        replicas := replicas[(database, region) := Replica(Primary, Ready)];
        assert replicas == After(old(Holds()), action).replicas;
        return true;
      case Delete(database, region) =>
        if (database, region) !in replicas {
          return false;
        }
        var gone := replicas[(database, region)];
        replicas := replicas - {(database, region)};
        if gone.role == Primary && !HasStandbyInSync(Holds(), database) {
          lost := lost + {database};
        }
        return true;
    }

    /** Moves the replica at `key` on, answering whether it had anywhere to go. */
    method Advance(key: Key) returns (moved: bool)
      modifies this
      ensures Holds() == Advanced(old(Holds()), key)
      ensures moved <==> CanAdvance(old(Holds()), key)
      ensures moved <==> key in old(replicas) && old(replicas)[key].phase != Ready
      ensures lost == old(lost)
      ensures moved ==>
                var was := old(replicas)[key];
                replicas == old(replicas)[key := Replica(was.role,
                  if was.role == Standby && was.phase == Provisioning then CatchingUp else Ready)]
      ensures !moved ==> replicas == old(replicas)
    {
      if key !in replicas {
        return false;
      }
      var replica := replicas[key];
      if replica.phase == Ready {
        return false;
      }
      var phase := if replica == Replica(Standby, Provisioning) then CatchingUp else Ready;
      replicas := replicas[key := replica.(phase := phase)];
      return true;
    }
  }

  /** The bounds a delay is drawn from. */
  datatype Bounds = ForProvisioning | ForCatchingUp

  /** When a phase change falls, and the order it was armed in. */
  datatype Entry = Entry(at: Bytes.u64, order: nat)

  predicate Sooner(a: Entry, b: Entry) {
    a.at < b.at || (a.at == b.at && a.order < b.order)
  }

  ghost predicate First(due: map<Entry, Key>, e: Entry) {
    e in due && forall f :: f in due && f != e ==> Sooner(e, f)
  }

  /** The first entry of a table of phase changes, if it has one. */
  method FirstEntry(due: map<Entry, Key>) returns (first: Option<Entry>)
    ensures first.None? <==> due == map[]
    ensures first.Some? ==> First(due, first.value)
  {
    if due == map[] {
      return None;
    }
    var todo := due.Keys;
    var e :| e in todo;
    todo := todo - {e};
    while todo != {}
      invariant e in due && e !in todo && todo <= due.Keys
      invariant forall f :: f in due && f != e && f !in todo ==> Sooner(e, f)
      decreases |todo|
    {
      var f :| f in todo;
      todo := todo - {f};
      if Sooner(f, e) {
        e := f;
      }
    }
    return Some(e);
  }

  /** What the table owes the replicas: one entry, and no more, for each that is not ready yet. */
  ghost predicate Owes(due: map<Entry, Key>, armed: nat, s: State) {
    && (forall e :: e in due ==> e.order < armed)
    && (forall e, f :: e in due && f in due && due[e] == due[f] ==> e == f)
    && (forall key :: CanAdvance(s, key) <==> key in due.Values)
  }

  /** The table holds as many entries as there are replicas on their way. */
  lemma {:induction false} OwesExactly(due: map<Entry, Key>, armed: nat, s: State)
    requires Owes(due, armed, s)
    ensures |due| == |set key | key in s.replicas && CanAdvance(s, key)|
  {
    Injective(due);
    assert due.Values == set key | key in s.replicas && CanAdvance(s, key);
  }

  lemma {:induction false} Injective(due: map<Entry, Key>)
    requires forall e, f :: e in due && f in due && due[e] == due[f] ==> e == f
    ensures |due| == |due.Values|
    decreases |due|
  {
    if due != map[] {
      var e :| e in due;
      var rest := due - {e};
      Injective(rest);
      forall key ensures key in due.Values <==> key in rest.Values + {due[e]} {
        if key in rest.Values { var f :| f in rest && rest[f] == key; assert f in due && due[f] == key; }
        if key in due.Values { var f :| f in due && due[f] == key; assert f == e || (f in rest && rest[f] == key); }
      }
      assert due.Values == rest.Values + {due[e]};
      forall f | f in rest ensures rest[f] != due[e] {
        assert f in due && f != e;
      }
      assert |due| == |rest| + 1 by { assert due.Keys == rest.Keys + {e}; assert |due.Keys| == |rest.Keys| + 1; }
    }
  }

  lemma OwesArmed(due: map<Entry, Key>, armed: nat, s: State, t: State, at: Bytes.u64, key: Key)
    requires Owes(due, armed, s) && !CanAdvance(s, key)
    requires forall k :: CanAdvance(t, k) <==> CanAdvance(s, k) || k == key
    ensures Owes(due[Entry(at, armed) := key], armed + 1, t)
  {
    var longer := due[Entry(at, armed) := key];
    assert Entry(at, armed) !in due;
    forall k ensures CanAdvance(t, k) <==> k in longer.Values {
      if k == key {
        assert longer[Entry(at, armed)] == key;
      } else if k in due.Values {
        var e :| e in due && due[e] == k;
        assert longer[e] == k;
      }
    }
  }

  lemma OwesTaken(due: map<Entry, Key>, armed: nat, s: State, t: State, key: Key, gone: set<Entry>)
    requires Owes(due, armed, s)
    requires forall e :: e in due ==> (e in gone <==> due[e] == key)
    requires forall k :: CanAdvance(t, k) <==> CanAdvance(s, k) && k != key
    ensures Owes(due - gone, armed, t)
  {
    var rest := due - gone;
    forall k ensures CanAdvance(t, k) <==> k in rest.Values {
      if k in due.Values && k != key {
        var e :| e in due && due[e] == k;
        assert e in rest && rest[e] == k;
      }
    }
  }

  /** Moving on the replica of one entry leaves the table owing what it should: a new entry if the
      replica is still on its way, and none if it is ready. */
  lemma OwesMoved(due: map<Entry, Key>, armed: nat, s: State, e: Entry, at: Bytes.u64)
    requires Owes(due, armed, s) && e in due
    ensures CanAdvance(s, due[e]) && due[e] in Advanced(s, due[e]).replicas
    ensures if Advanced(s, due[e]).replicas[due[e]].phase == CatchingUp
            then Owes((due - {e})[Entry(at, armed) := due[e]], armed + 1, Advanced(s, due[e]))
            else Owes(due - {e}, armed, Advanced(s, due[e]))
  {
    var key := due[e];
    assert key in due.Values;
    var gone := State(s.replicas - {key}, s.lost);
    OwesTaken(due, armed, s, gone, key, {e});
    if Advanced(s, key).replicas[key].phase == CatchingUp {
      OwesArmed(due - {e}, armed, gone, Advanced(s, key), at, key);
    } else {
      assert forall k :: CanAdvance(Advanced(s, key), k) <==> CanAdvance(gone, k);
    }
  }

  lemma OwesCreated(due: map<Entry, Key>, armed: nat, s: State, action: Action, at: Bytes.u64)
    requires Owes(due, armed, s) && action.Create? && Fits(s, action)
    ensures Owes(due[Entry(at, armed) := Place(action)], armed + 1, After(s, action))
  {
    OwesArmed(due, armed, s, After(s, action), at, Place(action));
  }

  lemma OwesDeleted(due: map<Entry, Key>, armed: nat, s: State, action: Action, gone: set<Entry>)
    requires Owes(due, armed, s) && action.Delete? && Fits(s, action)
    requires gone == set e | e in due && due[e] == Place(action)
    ensures Owes(due - gone, armed, After(s, action))
  {
    OwesTaken(due, armed, s, After(s, action), Place(action), gone);
  }

  lemma OwesPromoted(due: map<Entry, Key>, armed: nat, s: State, action: Action)
    requires Owes(due, armed, s) && action.Promote?
    ensures Owes(due, armed, After(s, action))
  {}

  datatype Message = Wanted(Name, Placement) | Moved(Key, Phase) | Carried(Action)

  /** One entry of the server's log: what was done, when, and what was wanted and there afterwards. */
  datatype Observation = Observation(at: Bytes.u64, message: Message, desired: Desired, state: State)

  /** The table once the replica of entry `e` has moved on and left the world at `s`: due again if it is now
      catching up, and not if it is ready. */
  function DueMoved(due: map<Entry, Key>, armed: nat, now: Bytes.u64, e: Entry, s: State, draw: Bounds -> nat)
    : map<Entry, Key>
    requires e in due
  {
    var rest := due - {e};
    if due[e] in s.replicas && s.replicas[due[e]].phase == CatchingUp
    then rest[Entry(Later(now, draw(ForCatchingUp)), armed) := due[e]] else rest
  }

  /** The table once an action has changed something: a replica made is due, one taken away takes its due
      entry with it, and a promotion makes nobody due. */
  function DueAfter(due: map<Entry, Key>, armed: nat, now: Bytes.u64, action: Action, draw: Bounds -> nat)
    : map<Entry, Key>
  {
    match action
    case Create(_, _, _) => due[Entry(Later(now, draw(ForProvisioning)), armed) := Place(action)]
    case Delete(_, _) => due - (set e | e in due && due[e] == Place(action))
    case Promote(_, _) => due
  }

  /** A replica made is due once after its provisioning takes, one taken away is due no more, and nobody else's due
      entry is touched. */
  lemma DueIsArmed(due: map<Entry, Key>, armed: nat, now: Bytes.u64, action: Action, draw: Bounds -> nat, e: Entry)
    requires forall f :: f in due ==> f.order < armed
    ensures var place, after := (action.database, action.region), DueAfter(due, armed, now, action, draw);
            if action.Create? && e.order == armed then
              e in after <==> e.at == Later(now, draw(ForProvisioning))
            else
              e in after <==> e in due && !(action.Delete? && due[e] == place)
    ensures var after := DueAfter(due, armed, now, action, draw);
            e in after ==> after[e] == if e.order == armed then (action.database, action.region) else due[e]
  {}

  /** A replica moved on is due no more as it was, and due again, once catching up takes, exactly if it is catching up
      now. */
  lemma DueIsMoved(due: map<Entry, Key>, armed: nat, now: Bytes.u64, moved: Entry, s: State, draw: Bounds -> nat, e: Entry)
    requires moved in due && forall f :: f in due ==> f.order < armed
    ensures var after := DueMoved(due, armed, now, moved, s, draw);
            if e.order == armed then
              e in after <==> due[moved] in s.replicas && s.replicas[due[moved]].phase == CatchingUp
                              && e.at == Later(now, draw(ForCatchingUp))
            else e in after <==> e in due && e != moved
    ensures var after := DueMoved(due, armed, now, moved, s, draw);
            e in after ==> after[e] == if e.order == armed then due[moved] else due[e]
  {}

  class Server {
    var desired: Desired
    const observed: Observed
    var due: map<Entry, Key>
    var armed: nat
    var observations: seq<Observation>

    /** One due entry for every replica on its way and none for any other; and a world with at most
        one primary to a database. */
    ghost predicate Valid()
      reads this, observed
    {
      && Owes(due, armed, observed.Holds())
      && Sound(observed.Holds())
    }

    constructor ()
      ensures Valid() && fresh(observed)
      ensures desired == map[] && observed.Holds() == NOTHING && due == map[] && observations == []
    {
      desired, due, armed, observations := map[], map[], 0, [];
      observed := new Observed();
    }

    /** When the next replica moves on: never, exactly when every replica is ready. */
    method NextDue() returns (at: Option<Bytes.u64>)
      requires Valid()
      ensures at.None? <==> forall key :: !CanAdvance(observed.Holds(), key)
      ensures at.Some? ==> exists e :: First(due, e) && at.value == e.at
      ensures at.Some? ==> (exists e :: e in due && at.value == e.at) && forall e :: e in due ==> at.value <= e.at
    {
      var first := FirstEntry(due);
      if first.None? {
        assert forall key :: key !in due.Values;
        return None;
      }
      assert CanAdvance(observed.Holds(), due[first.value]);
      return Some(first.value.at);
    }

    method Arm(now: Bytes.u64, key: Key, delay: nat)
      modifies this`due, this`armed
      ensures due == old(due)[Entry(Later(now, delay), old(armed)) := key]
      ensures armed == old(armed) + 1
    {
      due := due[Entry(Later(now, delay), armed) := key];
      armed := armed + 1;
    }

    method Write(at: Bytes.u64, message: Message)
      modifies this`observations
      ensures observations == old(observations) + [Observation(at, message, desired, observed.Holds())]
    {
      observations := observations + [Observation(at, message, desired, observed.Holds())];
    }

    method Change(now: Bytes.u64, database: Name, placement: Placement)
      requires Valid()
      modifies this`desired, this`observations
      ensures Valid()
      ensures desired == old(desired)[database := placement]
      ensures observations == old(observations)
                + [Observation(now, Wanted(database, placement), desired, observed.Holds())]
    {
      desired := desired[database := placement];
      Write(now, Wanted(database, placement));
    }

    /** The entry `e` is taken out of the table and its replica moved on. There always is one to
        move, so the two guards a missing or finished replica would need are dead. */
    method MoveOn(now: Bytes.u64, e: Entry, draw: Bounds -> nat)
      requires Valid() && e in due
      modifies this, observed
      ensures Valid() && desired == old(desired)
      ensures CanAdvance(old(observed.Holds()), old(due)[e])
      ensures observed.Holds() == Advanced(old(observed.Holds()), old(due)[e])
      ensures observations == old(observations)
                + [Observation(now, Moved(old(due)[e], observed.replicas[old(due)[e]].phase), desired, observed.Holds())]
      ensures due == DueMoved(old(due), old(armed), now, e, observed.Holds(), draw)
    {
      var key := due[e];
      ghost var before := observed.Holds();
      OwesMoved(due, armed, before, e, Later(now, draw(ForCatchingUp)));
      AdvancedKeepsSound(before, key);
      hide Owes, Sound, Advanced, CanAdvance;
      due := due - {e};
      var moved := observed.Advance(key);
      if !moved {
        assert false;
        return;
      }
      if observed.replicas[key].phase == CatchingUp {
        Arm(now, key, draw(ForCatchingUp));
      }
      Write(now, Moved(key, observed.replicas[key].phase));
    }

    /** Takes the first due entry if `now` has reached it, and otherwise changes nothing. */
    method Advance(now: Bytes.u64, draw: Bounds -> nat) returns (ghost taken: Option<Entry>)
      requires Valid()
      modifies this, observed
      ensures Valid() && desired == old(desired)
      ensures taken.None? ==>
                && (forall e :: e in old(due) ==> now < e.at) && due == old(due)
                && observed.Holds() == old(observed.Holds()) && observations == old(observations)
      ensures taken.Some? ==>
                && First(old(due), taken.value) && taken.value.at <= now && taken.value !in due
                && (forall e :: e in old(due) && e != taken.value ==>
                      taken.value.at < e.at || (taken.value.at == e.at && taken.value.order < e.order))
                && observed.Holds() == Advanced(old(observed.Holds()), old(due)[taken.value]) != old(observed.Holds())
                && due == DueMoved(old(due), old(armed), now, taken.value, observed.Holds(), draw)
                && observations == old(observations)
                     + [Observation(now, Moved(old(due)[taken.value], observed.replicas[old(due)[taken.value]].phase),
                                    desired, observed.Holds())]
    {
      var first := FirstEntry(due);
      if first.None? {
        return None;
      }
      if first.value.at > now {
        return None;
      }
      assert armed !in set e | e in due :: e.order;
      MoveOn(now, first.value, draw);
      return first;
    }

    /** Brings the table into step with an action just carried out on `before`. */
    method Owe(now: Bytes.u64, action: Action, draw: Bounds -> nat, ghost before: State)
      requires Owes(due, armed, before) && Fits(before, action)
      modifies this`due, this`armed
      ensures Owes(due, armed, After(before, action))
      ensures due == DueAfter(old(due), old(armed), now, action, draw)
    {
      assert forall e :: e in due ==> e.order < armed;
      hide Owes, After, Fits;
      var key := Place(action);
      match action {
        case Create(_, _, _) =>
          OwesCreated(due, armed, before, action, Later(now, draw(ForProvisioning)));
          Arm(now, key, draw(ForProvisioning));
        case Delete(_, _) =>
          var gone := set e | e in due && due[e] == key;
          OwesDeleted(due, armed, before, action, gone);
          due := due - gone;
        case Promote(_, _) =>
          OwesPromoted(due, armed, before, action);
      }
    }

    /** The world becomes what the action makes of it; if that is a change, the table follows and one entry is logged. */
    method Apply(now: Bytes.u64, action: Action, draw: Bounds -> nat)
      requires Valid()
      modifies this, observed
      ensures Valid() && desired == old(desired)
      ensures observed.Holds() == After(old(observed.Holds()), action)
      ensures observations == if observed.Holds() == old(observed.Holds()) then old(observations)
                              else old(observations) + [Observation(now, Carried(action), desired, observed.Holds())]
      ensures due == if observed.Holds() == old(observed.Holds()) then old(due)
                     else DueAfter(old(due), old(armed), now, action, draw)
    {
      ghost var before := observed.Holds();
      AfterKeepsSound(before, action);
      hide Owes, Sound, After, Fits, CanAdvance;
      var changed := observed.Apply(action);
      if !changed {
        return;
      }
      Owe(now, action, draw, before);
      Write(now, Carried(action));
    }
  }
}
