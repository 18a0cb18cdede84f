/** The reconciler's rules, said of the database, its placement and its replicas: when each action is asked for,
    what each leaves behind when it lands, and what time does to a replica. */
module ReconcilerRules {
  import opened Reconciler
  import opened ReconcilerTeardown
  import opened Wrappers
  import P = ReconcilerPass

  // ---------------------------------------------------------------------------------------------
  // When an action is asked for

  /** A primary is created where it is wanted, when nothing is there and the database has no primary anywhere. */
  lemma CreatesPrimaryIff(d: Desired, s: State, db: Name, r: Region)
    ensures Create(db, r, Primary) in Reconcile(d, s) <==>
              && db in d && r == d[db].primary && (db, r) !in s.replicas
              && forall key :: key in s.replicas && key.0 == db ==> s.replicas[key].role == Standby
  {
    hide Reconcile;
    ReconcileExact(d, s, Create(db, r, Primary));
    assert HasPrimary(s, db) <==> exists key :: key in s.replicas && key.0 == db && s.replicas[key].role == Primary;
  }

  /** A standby is created where one is wanted and nothing is, and where the primary is wanted while it is elsewhere. */
  lemma CreatesStandbyIff(d: Desired, s: State, db: Name, r: Region)
    ensures Create(db, r, Standby) in Reconcile(d, s) <==>
              && db in d && (db, r) !in s.replicas
              && (r in d[db].standbys
                  || (r == d[db].primary && exists key :: key in s.replicas && key.0 == db && s.replicas[key].role == Primary))
  {
    hide Reconcile;
    ReconcileExact(d, s, Create(db, r, Standby));
    assert HasPrimary(s, db) <==> exists key :: key in s.replicas && key.0 == db && s.replicas[key].role == Primary;
  }

  /** A standby that is ready is promoted where the primary is wanted, and nothing else is anywhere. */
  lemma PromotesIff(d: Desired, s: State, db: Name, r: Region)
    ensures Promote(db, r) in Reconcile(d, s) <==>
              && db in d && r == d[db].primary && (db, r) in s.replicas
              && s.replicas[(db, r)].role == Standby && s.replicas[(db, r)].phase == Ready
  {
    hide Reconcile;
    ReconcileExact(d, s, Promote(db, r));
  }

  /** What is deleted is a replica of a database not wanted at all, or a standby in a region the database is not
      wanted in. */
  lemma DeletesIff(d: Desired, s: State, db: Name, r: Region)
    ensures Delete(db, r) in Reconcile(d, s) <==>
              && (db, r) in s.replicas
              && (db !in d || (r != d[db].primary && r !in d[db].standbys && s.replicas[(db, r)].role == Standby))
  {
    hide Reconcile;
    ReconcileExact(d, s, Delete(db, r));
  }

  /** A database wanted with no primary, and with nothing where its primary is wanted, has a primary there after one
      pass, in whatever order the pass lands and whatever of it lands twice. */
  lemma PrimaryAfterOnePass(d: Desired, s: State, db: Name, p: seq<Action>)
    requires WholePass(d, s, p) && db in d && (db, d[db].primary) !in s.replicas
    requires forall key :: key in s.replicas && key.0 == db ==> s.replicas[key].role == Standby
    ensures var t, key := ApplyAll(s, p), (db, d[db].primary);
            key in t.replicas && t.replicas[key] == Replica(Primary, Provisioning)
  {
    var key := (db, d[db].primary);
    forall a | a in p ensures Decide(d, s, Place(a)) == Some(a) { ReconcileExact(d, s, a); }
    P.PassLeaves(d, s, p);
    CreatesPrimaryIff(d, s, db, key.1);
    ReconcileExact(d, s, Create(db, key.1, Primary));
    assert P.At(ApplyAll(s, p), key) == P.Left(d, s, P.Members(p), key);
  }

  // ---------------------------------------------------------------------------------------------
  // What an action leaves

  /** A replica created is being provisioned in the role asked for, unless one is there or it would be a second
      primary; and nothing else changes. */
  lemma CreateLeaves(s: State, db: Name, r: Region, role: Role)
    ensures var t := After(s, Create(db, r, role));
            t == if (db, r) in s.replicas
                    || (role == Primary && exists key :: key in s.replicas && key.0 == db && s.replicas[key].role == Primary)
                 then s else State(s.replicas[(db, r) := Replica(role, Provisioning)], s.lost)
  {
    assert HasPrimary(s, db) <==> exists key :: key in s.replicas && key.0 == db && s.replicas[key].role == Primary;
  }

  /** A standby that is ready becomes the one primary, ready; whatever was the database's primary becomes a standby
      in the phase it was in; and nothing else changes. Any other replica, and a place that holds none, refuses. */
  lemma PromoteLeaves(s: State, db: Name, r: Region)
    ensures var t := After(s, Promote(db, r));
            if (db, r) in s.replicas && s.replicas[(db, r)].role == Standby && s.replicas[(db, r)].phase == Ready then
              && t.lost == s.lost && t.replicas.Keys == s.replicas.Keys && t.replicas[(db, r)] == Replica(Primary, Ready)
              && forall key :: key in s.replicas && key != (db, r) ==>
                   t.replicas[key] == Replica(if key.0 == db then Standby else s.replicas[key].role, s.replicas[key].phase)
            else t == s
  {}

  /** A replica deleted is gone and nothing else is. The database is lost with it when it was a primary and no
      standby in sync is left. */
  lemma DeleteLeaves(s: State, db: Name, r: Region)
    ensures var t := After(s, Delete(db, r));
            && t.replicas == s.replicas - {(db, r)}
            && (forall other :: other in t.lost <==>
                  || other in s.lost
                  || (other == db && (db, r) in s.replicas && s.replicas[(db, r)].role == Primary
                      && forall key :: key in s.replicas && key.0 == db ==> s.replicas[key] != Replica(Standby, Ready)))
  {
    var t := After(s, Delete(db, r));
    if (db, r) in s.replicas {
      var rest := s.(replicas := s.replicas - {(db, r)});
      if s.replicas[(db, r)].role == Primary {
        forall key | key in s.replicas && key.0 == db && s.replicas[key] == Replica(Standby, Ready)
          ensures key in rest.replicas && InSync(rest, key)
        {}
        if HasStandbyInSync(rest, db) {
          var key :| key in rest.replicas && key.0 == db && InSync(rest, key);
          assert s.replicas[key] == Replica(Standby, Ready);
        }
      }
    }
  }

  // ---------------------------------------------------------------------------------------------
  // What time does

  /** A standby being provisioned is catching up next, and only then ready; a primary being provisioned is ready
      next; and a replica that is ready, or is not there, stays as it is. */
  lemma TimeLeaves(s: State, key: Key)
    ensures var t := Advanced(s, key);
            && t.lost == s.lost && t.replicas.Keys == s.replicas.Keys
            && (forall other :: other in s.replicas && other != key ==> t.replicas[other] == s.replicas[other])
            && (key in s.replicas ==>
                  && t.replicas[key].role == s.replicas[key].role
                  && (s.replicas[key].phase == Provisioning && s.replicas[key].role == Standby ==> t.replicas[key].phase == CatchingUp)
                  && (s.replicas[key].phase == Provisioning && s.replicas[key].role == Primary ==> t.replicas[key].phase == Ready)
                  && (s.replicas[key].phase != Provisioning ==> t.replicas[key].phase == Ready))
  {}

  /** How often a replica's time came. */
  function Dues(events: seq<Event>, key: Key): nat {
    if events == [] then 0
    else Dues(events[..|events| - 1], key) + (if events[|events| - 1] == Due(key) then 1 else 0)
  }

  /** A replica that was only ever a standby has been through both its phase changes before it counts as in sync,
      whatever else happens meanwhile. */
  lemma {:induction false} StandbyCatchesUpFirst(s: State, events: seq<Event>, key: Key)
    requires key !in s.replicas
    requires Asked(Create(key.0, key.1, Primary)) !in events && Asked(Promote(key.0, key.1)) !in events
    ensures var t := Happen(s, events);
            key in t.replicas ==>
              && t.replicas[key].role == Standby
              && (t.replicas[key].phase == CatchingUp ==> Dues(events, key) >= 1)
              && (t.replicas[key].phase == Ready ==> Dues(events, key) >= 2)
  {
    if events != [] {
      var n := |events| - 1;
      var before := events[..n];
      assert events == before + [events[n]];
      StandbyCatchesUpFirst(s, before, key);
      var u := Happen(s, before);
      match events[n]
      case Due(k) => TimeLeaves(u, k);
      case Asked(Create(db, r, role)) => CreateLeaves(u, db, r, role);
      case Asked(Promote(db, r)) => PromoteLeaves(u, db, r);
      case Asked(Delete(db, r)) => DeleteLeaves(u, db, r);
    }
  }
}
