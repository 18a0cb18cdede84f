/** The reconciler: what is wanted, what exists, how an action or the passage of time changes it,
    and the decision that turns the difference into actions. */
module Reconciler {
  import opened Order
  import opened Wrappers

  type Name = string
  type Region = string
  /** One database's place in one region. */
  type Key = (Name, Region)

  datatype Role = Primary | Standby
  datatype Phase = Provisioning | CatchingUp | Ready
  datatype Replica = Replica(role: Role, phase: Phase)

  datatype PlacementError = PrimaryAlsoStandby(region: Region)
  datatype Placed = Placed(placement: Placement) | Refused(error: PlacementError)

  /** Where a database is wanted: a primary, and a standby in each of some other regions. */
  datatype AnyPlacement = Placement(primary: Region, standbys: set<Region>)
  type Placement = p: AnyPlacement | p.primary !in p.standbys witness Placement("", {})

  function NewPlacement(primary: Region, standbys: set<Region>): (placed: Placed)
    ensures placed.Placed? <==> primary !in standbys
    ensures placed.Placed? ==> placed.placement.primary == primary && placed.placement.standbys == standbys
    ensures placed.Refused? ==> placed.error.region == primary
  {
    if primary in standbys then Refused(PrimaryAlsoStandby(primary))
    else Placed(Placement(primary, standbys))
  }

  type Desired = map<Name, Placement>

  /** The replicas there are, by place, and the databases marked lost. */
  datatype State = State(replicas: map<Key, Replica>, lost: set<Name>)

  const NOTHING := State(map[], {})

  datatype Action =
    | Create(database: Name, region: Region, role: Role)
    | Promote(database: Name, region: Region)
    | Delete(database: Name, region: Region)

  // ---------------------------------------------------------------------------------------------
  // What exists

  predicate IsPrimary(s: State, key: Key) {
    key in s.replicas && s.replicas[key].role == Primary
  }

  predicate InSync(s: State, key: Key) {
    key in s.replicas && s.replicas[key] == Replica(Standby, Ready)
  }

  predicate HasPrimary(s: State, database: Name) {
    exists key :: key in s.replicas && key.0 == database && IsPrimary(s, key)
  }

  predicate HasStandbyInSync(s: State, database: Name) {
    exists key :: key in s.replicas && key.0 == database && InSync(s, key)
  }

  /** The replica a promotion of `database` in `region` leaves where `was` stood at `key`. */
  function Promoted(key: Key, was: Replica, database: Name, region: Region): Replica {
    if key == (database, region) then Replica(Primary, Ready)
    else if key.0 == database && was.role == Primary then was.(role := Standby)
    else was
  }

  /** The state `action` leaves behind. */
  function After(s: State, action: Action): State {
    match action
    case Create(database, region, role) =>
      if (database, region) in s.replicas || (role == Primary && HasPrimary(s, database)) then s
      else s.(replicas := s.replicas[(database, region) := Replica(role, Provisioning)])
    case Promote(database, region) =>
      if !InSync(s, (database, region)) then s
      else s.(replicas := map key | key in s.replicas ::
                            Promoted(key, s.replicas[key], database, region))
    case Delete(database, region) =>
      if (database, region) !in s.replicas then s
      else
        var rest := s.(replicas := s.replicas - {(database, region)});
        if IsPrimary(s, (database, region)) && !HasStandbyInSync(rest, database)
        then rest.(lost := rest.lost + {database})
        else rest
  }

  /** Whether `action` still fits the world it lands on, which is what carrying it out answers. */
  predicate Fits(s: State, action: Action) {
    match action
    case Create(database, region, role) =>
      (database, region) !in s.replicas && (role == Primary ==> !HasPrimary(s, database))
    case Promote(database, region) => InSync(s, (database, region))
    case Delete(database, region) => (database, region) in s.replicas
  }

  /** The phase after the one `replica` is in, for a replica that has one to move on to. */
  function NextPhase(replica: Replica): Option<Phase> {
    match replica
    case Replica(Standby, Provisioning) => Some(CatchingUp)
    case Replica(_, Ready) => None
    case _ => Some(Ready)
  }

  predicate CanAdvance(s: State, key: Key) {
    key in s.replicas && s.replicas[key].phase != Ready
  }

  /** The state left once the replica at `key` has moved on, if it had anywhere left to go. */
  function Advanced(s: State, key: Key): State {
    if key !in s.replicas then s
    else match NextPhase(s.replicas[key])
      case None => s
      case Some(phase) => s.(replicas := s.replicas[key := s.replicas[key].(phase := phase)])
  }

  function ApplyAll(s: State, actions: seq<Action>): State {
    if actions == [] then s
    else After(ApplyAll(s, actions[..|actions| - 1]), actions[|actions| - 1])
  }

  // ---------------------------------------------------------------------------------------------
  // What is wanted

  predicate Wanted(d: Desired, key: Key) {
    key.0 in d && (key.1 == d[key.0].primary || key.1 in d[key.0].standbys)
  }

  function RoleWanted(d: Desired, key: Key): Role
    requires Wanted(d, key)
  {
    if key.1 == d[key.0].primary then Primary else Standby
  }

  // ---------------------------------------------------------------------------------------------
  // The decision

  /** What is asked for at one place, if anything. */
  function Decide(d: Desired, s: State, key: Key): Option<Action> {
    if Wanted(d, key) then
      if key !in s.replicas then
        Some(Create(key.0, key.1,
                    if RoleWanted(d, key) == Primary && !HasPrimary(s, key.0) then Primary else Standby))
      else if RoleWanted(d, key) == Primary && InSync(s, key) then Some(Promote(key.0, key.1))
      else None
    else if key !in s.replicas || (IsPrimary(s, key) && key.0 in d) then None
    else Some(Delete(key.0, key.1))
  }

  function Databases(d: Desired, s: State): set<Name> {
    d.Keys + set key | key in s.replicas :: key.0
  }

  function Regions(d: Desired, s: State, database: Name): set<Region> {
    (if database in d then d[database].standbys + {d[database].primary} else {})
    + set key | key in s.replicas && key.0 == database :: key.1
  }

  /** What is decided at each place of every database known, places in ascending order. */
  function Reconcile(d: Desired, s: State): seq<Action> {
    OverDatabases(d, s, Sorted(Databases(d, s)))
  }

  function OverDatabases(d: Desired, s: State, databases: seq<Name>): seq<Action> {
    if databases == [] then []
    else OverRegions(d, s, databases[0], Sorted(Regions(d, s, databases[0])))
         + OverDatabases(d, s, databases[1..])
  }

  function OverRegions(d: Desired, s: State, database: Name, regions: seq<Region>): seq<Action> {
    if regions == [] then []
    else
      var rest := OverRegions(d, s, database, regions[1..]);
      match Decide(d, s, (database, regions[0]))
      case None => rest
      case Some(action) => [action] + rest
  }

  function Place(a: Action): Key {
    (a.database, a.region)
  }

  ghost predicate PlaceBefore(a: Action, b: Action) {
    Before(a.database, b.database) || (a.database == b.database && Before(a.region, b.region))
  }

  ghost predicate PlacesAscend(q: seq<Action>) {
    forall i, j :: 0 <= i < j < |q| ==> PlaceBefore(q[i], q[j])
  }

  lemma PlacesAscendJoin(p: seq<Action>, q: seq<Action>)
    requires PlacesAscend(p) && PlacesAscend(q)
    requires forall a, b :: a in p && b in q ==> PlaceBefore(a, b)
    ensures PlacesAscend(p + q)
  {
    forall i, j | 0 <= i < j < |p + q| ensures PlaceBefore((p + q)[i], (p + q)[j]) {
      if i < |p| && |p| <= j {
        assert p[i] in p && q[j - |p|] in q;
      }
    }
  }

  lemma {:induction false} OverRegionsExact(d: Desired, s: State, database: Name, regions: seq<Region>, a: Action)
    ensures a in OverRegions(d, s, database, regions)
            <==> a.database == database && a.region in regions && Decide(d, s, Place(a)) == Some(a)
  {
    if regions != [] {
      OverRegionsExact(d, s, database, regions[1..], a);
    }
  }

  lemma {:induction false} OverDatabasesExact(d: Desired, s: State, databases: seq<Name>, a: Action)
    ensures a in OverDatabases(d, s, databases)
            <==> a.database in databases && a.region in Regions(d, s, a.database)
                 && Decide(d, s, Place(a)) == Some(a)
  {
    if databases != [] {
      OverRegionsExact(d, s, databases[0], Sorted(Regions(d, s, databases[0])), a);
      OverDatabasesExact(d, s, databases[1..], a);
    }
  }

  /** The list holds exactly what is decided at some place, whatever the place. */
  lemma ReconcileExact(d: Desired, s: State, a: Action)
    ensures a in Reconcile(d, s) <==> Decide(d, s, Place(a)) == Some(a)
  {
    OverDatabasesExact(d, s, Sorted(Databases(d, s)), a);
    if Decide(d, s, Place(a)) == Some(a) && !Wanted(d, Place(a)) {
      assert Place(a) in s.replicas;
    }
  }

  lemma {:induction false} OverRegionsOrdered(d: Desired, s: State, database: Name, regions: seq<Region>)
    requires Ascending(regions)
    ensures PlacesAscend(OverRegions(d, s, database, regions))
  {
    if regions != [] {
      var rest := OverRegions(d, s, database, regions[1..]);
      OverRegionsOrdered(d, s, database, regions[1..]);
      match Decide(d, s, (database, regions[0]))
      case None =>
      case Some(action) =>
        forall a | a in rest ensures PlaceBefore(action, a) {
          OverRegionsExact(d, s, database, regions[1..], a);
        }
        PlacesAscendJoin([action], rest);
    }
  }

  lemma {:induction false} OverDatabasesOrdered(d: Desired, s: State, databases: seq<Name>)
    requires Ascending(databases)
    ensures PlacesAscend(OverDatabases(d, s, databases))
  {
    if databases != [] {
      var first := OverRegions(d, s, databases[0], Sorted(Regions(d, s, databases[0])));
      var rest := OverDatabases(d, s, databases[1..]);
      OverRegionsOrdered(d, s, databases[0], Sorted(Regions(d, s, databases[0])));
      OverDatabasesOrdered(d, s, databases[1..]);
      forall a, b | a in first && b in rest ensures PlaceBefore(a, b) {
        OverRegionsExact(d, s, databases[0], Sorted(Regions(d, s, databases[0])), a);
        OverDatabasesExact(d, s, databases[1..], b);
      }
      PlacesAscendJoin(first, rest);
    }
  }

  /** The actions come back ordered by database and then region, so at most one a replica. */
  lemma ReconcileOrdered(d: Desired, s: State)
    ensures PlacesAscend(Reconcile(d, s))
    ensures var q := Reconcile(d, s);
            forall i, j :: 0 <= i < j < |q| ==> Place(q[i]) != Place(q[j])
  {
    OverDatabasesOrdered(d, s, Sorted(Databases(d, s)));
    var q := Reconcile(d, s);
    forall i, j | 0 <= i < j < |q| ensures Place(q[i]) != Place(q[j]) {
      assert PlaceBefore(q[i], q[j]);
      BeforeIrreflexive(q[i].database);
      BeforeIrreflexive(q[i].region);
    }
  }

  // ---------------------------------------------------------------------------------------------
  // What carrying an action out promises

  /** An action answers that it changed something exactly when the state it leaves is another one. */
  lemma FitsIffChanges(s: State, a: Action)
    ensures Fits(s, a) <==> After(s, a) != s
  {
    match a
    case Create(database, region, role) =>
    case Promote(database, region) =>
      if Fits(s, a) {
        assert After(s, a).replicas[(database, region)] == Replica(Primary, Ready);
      }
    case Delete(database, region) =>
      if Fits(s, a) {
        assert (database, region) !in After(s, a).replicas;
      }
  }

  /** Landing twice is landing once. */
  lemma ApplyIdempotent(s: State, a: Action)
    ensures !Fits(After(s, a), a) && After(After(s, a), a) == After(s, a)
  {
    match a
    case Create(database, region, role) =>
    case Promote(database, region) =>
      if Fits(s, a) {
        assert After(s, a).replicas[(database, region)] == Replica(Primary, Ready);
      }
    case Delete(database, region) =>
  }

  /** A database has at most one primary, and no primary is copying from one. */
  ghost predicate Sound(s: State) {
    && (forall k, l :: IsPrimary(s, k) && IsPrimary(s, l) && k.0 == l.0 ==> k == l)
    && (forall k :: IsPrimary(s, k) ==> s.replicas[k].phase != CatchingUp)
  }

  lemma AfterKeepsSound(s: State, a: Action)
    requires Sound(s)
    ensures Sound(After(s, a))
  {
    var t := After(s, a);
    if a.Promote? && Fits(s, a) {
      forall k | IsPrimary(t, k) && k.0 == a.database ensures k == (a.database, a.region) {
      }
    }
    if a.Create? && a.role == Primary && Fits(s, a) {
      forall k | IsPrimary(t, k) && k.0 == a.database ensures k == (a.database, a.region) {
        if k != (a.database, a.region) { assert IsPrimary(s, k); }
      }
    }
    forall k | IsPrimary(t, k) ensures t.replicas[k].phase != CatchingUp {
      if k in s.replicas && s.replicas[k].role == Primary { assert IsPrimary(s, k); }
    }
    forall k, l | IsPrimary(t, k) && IsPrimary(t, l) && k.0 == l.0 ensures k == l {
      if k in s.replicas && l in s.replicas && s.replicas[k].role == Primary && s.replicas[l].role == Primary {
        assert IsPrimary(s, k) && IsPrimary(s, l);
      }
    }
  }

  lemma AdvancedKeepsSound(s: State, key: Key)
    requires Sound(s)
    ensures Sound(Advanced(s, key))
  {
    var t := Advanced(s, key);
    forall k | IsPrimary(t, k) ensures IsPrimary(s, k) && t.replicas[k].phase != CatchingUp {
      assert IsPrimary(s, k);
    }
  }

  /** One thing that can happen to a world: something asked of it, or time passing for a replica. */
  datatype Event = Asked(action: Action) | Due(key: Key)

  function Happened(s: State, event: Event): State {
    match event
    case Asked(action) => After(s, action)
    case Due(key) => Advanced(s, key)
  }

  function Happen(s: State, events: seq<Event>): State {
    if events == [] then s else Happened(Happen(s, events[..|events| - 1]), events[|events| - 1])
  }

  /** Every world reached from a sound one, the empty one among them, is sound. */
  lemma {:induction false} ReachedSound(s: State, events: seq<Event>)
    requires Sound(s)
    ensures Sound(Happen(s, events))
  {
    if events != [] {
      ReachedSound(s, events[..|events| - 1]);
      var before := Happen(s, events[..|events| - 1]);
      match events[|events| - 1]
      case Asked(action) => AfterKeepsSound(before, action);
      case Due(key) => AdvancedKeepsSound(before, key);
    }
  }

  /** From a world holding nothing, whatever is asked of it and however time passes. */
  lemma ReachedFromNothing(events: seq<Event>)
    ensures Sound(Happen(NOTHING, events))
  {
    ReachedSound(NOTHING, events);
  }

  /** A database once lost stays lost. */
  lemma {:induction false} LostForGood(s: State, events: seq<Event>)
    ensures s.lost <= Happen(s, events).lost
  {
    if events != [] {
      LostForGood(s, events[..|events| - 1]);
    }
  }
}
