/** Exactly when what is wanted may change: a wire is safe to change over if and only if it is calm about the
    database under the new placement. */
module ReconcilerCalm {
  import opened Reconciler
  import opened ReconcilerAsync

  /** Wherever the replicas stand, no run over this wire that leaves what is wanted alone loses `database`. */
  ghost predicate NeverLoses(d: Desired, listings: multiset<Listing>, actions: multiset<Action>, database: Name) {
    forall s: State, steps: seq<Step> | database !in s.lost && Possible(System(d, s, listings, actions), steps)
                                       && Unchanging(steps) ::
      database !in Run(System(d, s, listings, actions), steps).state.lost
  }

  /** The same, asked only of worlds an empty one can come to. */
  ghost predicate NeverLosesReached(d: Desired, listings: multiset<Listing>, actions: multiset<Action>, database: Name) {
    forall events: seq<Event>, steps: seq<Step> | database !in Happen(NOTHING, events).lost
        && Possible(System(d, Happen(NOTHING, events), listings, actions), steps) && Unchanging(steps) ::
      database !in Run(System(d, Happen(NOTHING, events), listings, actions), steps).state.lost
  }

  /** A run that loses `database`, what is wanted standing still. */
  ghost predicate Loses(y: System, steps: seq<Step>, database: Name) {
    database !in y.state.lost && Possible(y, steps) && Unchanging(steps) && database in Run(y, steps).state.lost
  }

  // ---------------------------------------------------------------------------------------------
  // Runs, a step at a time

  /** `steps` can be taken from `y` and lead to `z`, what is wanted standing still. */
  ghost predicate Leads(y: System, steps: seq<Step>, z: System) {
    Possible(y, steps) && Run(y, steps) == z && Unchanging(steps)
  }

  lemma Stay(y: System)
    ensures Leads(y, [], y)
  {}

  /** Steps that can be taken one after another make a run. */
  lemma PossibleSnoc(y: System, steps: seq<Step>, step: Step)
    requires Possible(y, steps) && Enabled(Run(y, steps), step)
    ensures Possible(y, steps + [step])
    ensures Run(y, steps + [step]) == Next(Run(y, steps), step)
  {
    hide Next, Enabled;
    var longer := steps + [step];
    assert longer[..|steps|] == steps;
    forall i | 0 <= i < |longer| ensures Enabled(Run(y, longer[..i]), longer[i]) {
      if i < |steps| {
        assert longer[..i] == steps[..i];
      }
    }
  }

  lemma Taken(y: System, steps: seq<Step>, z: System, step: Step) returns (longer: seq<Step>)
    requires Leads(y, steps, z) && Enabled(z, step) && !step.Change?
    ensures Leads(y, longer, Next(z, step))
  {
    hide Next, Enabled, Run, Possible;
    PossibleSnoc(y, steps, step);
    longer := steps + [step];
  }

  /** A listing answered and looked at: what it calls for is on the wire. */
  lemma LookedAt(y: System, steps: seq<Step>, z: System) returns (longer: seq<Step>)
    requires Leads(y, steps, z)
    ensures Leads(y, longer, z.(actions := z.actions + multiset(Reconcile(z.desired, z.state))))
  {
    hide Leads, Reconcile;
    var listing := Listing(z.desired, z.state);
    longer := Taken(y, steps, z, Answer);
    longer := Taken(y, longer, Next(z, Answer), Look(listing));
    assert z.listings + multiset{listing} - multiset{listing} == z.listings;
  }

  lemma Landed(y: System, steps: seq<Step>, z: System, a: Action) returns (longer: seq<Step>)
    requires Leads(y, steps, z) && a in z.actions
    ensures Leads(y, longer, z.(state := After(z.state, a), actions := z.actions - multiset{a}))
  {
    hide Leads, After;
    longer := Taken(y, steps, z, Land(a));
  }

  lemma Lost(y: System, steps: seq<Step>, z: System, database: Name)
    requires Leads(y, steps, z) && database !in y.state.lost && database in z.state.lost
    ensures Loses(y, steps, database)
  {}

  // ---------------------------------------------------------------------------------------------
  // A world for each action that is not tame

  function Only(key: Key, replica: Replica): State {
    State(map[key := replica], {})
  }

  function Two(db: Name, east: Region, first: Replica, west: Region, second: Replica): State {
    State(map[(db, east) := first, (db, west) := second], {})
  }

  /** The world in which an action that is not tame does its harm. */
  function Bait(d: Desired, a: Action): State
    requires a.database in d
  {
    match a
    case Delete(db, r) => Only((db, r), Replica(Primary, Ready))
    case Promote(db, r) => Two(db, d[db].primary, Replica(Primary, Provisioning), r, Replica(Standby, Ready))
    case Create(db, r, _) => Only((db, r), Replica(Standby, Ready))
  }

  /** What has happened to an empty world when it has come to that. */
  function Baiting(d: Desired, a: Action): seq<Event>
    requires a.database in d
  {
    match a
    case Delete(db, r) => [Asked(Create(db, r, Primary)), Due((db, r))]
    case Promote(db, r) =>
      [Asked(Create(db, d[db].primary, Primary)), Asked(Create(db, r, Standby)), Due((db, r)), Due((db, r))]
    case Create(db, r, _) => [Asked(Create(db, r, Standby)), Due((db, r)), Due((db, r))]
  }

  lemma HappenMore(s: State, events: seq<Event>, e: Event)
    ensures Happen(s, events + [e]) == Happened(Happen(s, events), e)
  {
    assert (events + [e])[..|events|] == events;
  }

  lemma CreatedAlone(key: Key, role: Role)
    ensures Happen(NOTHING, [Asked(Create(key.0, key.1, role))]) == Only(key, Replica(role, Provisioning))
  {
    HappenMore(NOTHING, [], Asked(Create(key.0, key.1, role)));
    assert [] + [Asked(Create(key.0, key.1, role))] == [Asked(Create(key.0, key.1, role))];
  }

  lemma BaitReached(d: Desired, a: Action)
    requires a.database in d && (a.Promote? ==> a.region != d[a.database].primary)
    ensures Happen(NOTHING, Baiting(d, a)) == Bait(d, a)
  {
    var key := Place(a);
    match a
    case Delete(db, r) =>
      var e := [Asked(Create(db, r, Primary))];
      CreatedAlone(key, Primary);
      HappenMore(NOTHING, e, Due(key));
      assert e + [Due(key)] == Baiting(d, a);
      assert Happen(NOTHING, Baiting(d, a)).replicas == Bait(d, a).replicas;
    case Create(db, r, _) =>
      var e := [Asked(Create(db, r, Standby))];
      CreatedAlone(key, Standby);
      HappenMore(NOTHING, e, Due(key));
      HappenMore(NOTHING, e + [Due(key)], Due(key));
      assert e + [Due(key)] + [Due(key)] == Baiting(d, a);
      assert Happen(NOTHING, Baiting(d, a)).replicas == Bait(d, a).replicas;
    case Promote(db, r) => TwoReached(db, d[db].primary, r);
  }

  lemma TwoReached(db: Name, east: Region, west: Region)
    requires east != west
    ensures Happen(NOTHING, [Asked(Create(db, east, Primary)), Asked(Create(db, west, Standby)), Due((db, west)), Due((db, west))])
            == Two(db, east, Replica(Primary, Provisioning), west, Replica(Standby, Ready))
  {
    var key := (db, west);
    var e := [Asked(Create(db, east, Primary))];
    var f := e + [Asked(Create(db, west, Standby))];
    CreatedAlone((db, east), Primary);
    HappenMore(NOTHING, e, Asked(Create(db, west, Standby)));
    assert Happen(NOTHING, f).replicas
           == Two(db, east, Replica(Primary, Provisioning), west, Replica(Standby, Provisioning)).replicas;
    HappenMore(NOTHING, f, Due(key));
    assert Happen(NOTHING, f + [Due(key)]).replicas
           == Two(db, east, Replica(Primary, Provisioning), west, Replica(Standby, CatchingUp)).replicas;
    HappenMore(NOTHING, f + [Due(key)], Due(key));
    assert Happen(NOTHING, f + [Due(key)] + [Due(key)]).replicas
           == Two(db, east, Replica(Primary, Provisioning), west, Replica(Standby, Ready)).replicas;
    assert f + [Due(key)] + [Due(key)]
           == [Asked(Create(db, east, Primary)), Asked(Create(db, west, Standby)), Due(key), Due(key)];
  }

  // ---------------------------------------------------------------------------------------------
  // What each such action comes to there

  /** A place wanted for nothing and holding no primary has its delete asked for. */
  lemma DeleteAsked(d: Desired, s: State, db: Name, r: Region)
    requires db in d && !Wanted(d, (db, r)) && (db, r) in s.replicas && !IsPrimary(s, (db, r))
    ensures Delete(db, r) in Reconcile(d, s)
  {
    ReconcileExact(d, s, Delete(db, r));
  }

  lemma OnlyPrimaryDeleted(db: Name, r: Region, phase: Phase)
    ensures db in After(Only((db, r), Replica(Primary, phase)), Delete(db, r)).lost
  {
    var s := Only((db, r), Replica(Primary, phase));
    assert IsPrimary(s, (db, r));
    var rest := s.(replicas := s.replicas - {(db, r)});
    assert forall key :: key !in rest.replicas;
  }

  lemma Promoting(db: Name, east: Region, west: Region)
    requires east != west
    ensures After(Two(db, east, Replica(Primary, Provisioning), west, Replica(Standby, Ready)), Promote(db, west))
            == Two(db, east, Replica(Standby, Provisioning), west, Replica(Primary, Ready))
    ensures db in After(Two(db, east, Replica(Standby, Provisioning), west, Replica(Primary, Ready)), Delete(db, west)).lost
  {
    var s := Two(db, east, Replica(Primary, Provisioning), west, Replica(Standby, Ready));
    var t := Two(db, east, Replica(Standby, Provisioning), west, Replica(Primary, Ready));
    assert InSync(s, (db, west));
    assert After(s, Promote(db, west)).replicas.Keys == t.replicas.Keys;
    assert After(s, Promote(db, west)).replicas == t.replicas;
    assert IsPrimary(t, (db, west));
    var rest := t.(replicas := t.replicas - {(db, west)});
    assert forall key :: key in rest.replicas ==> key == (db, east);
  }

  lemma Recreating(db: Name, r: Region)
    ensures After(Only((db, r), Replica(Standby, Ready)), Delete(db, r)) == NOTHING
    ensures After(NOTHING, Create(db, r, Primary)) == Only((db, r), Replica(Primary, Provisioning))
  {
    var s := Only((db, r), Replica(Standby, Ready));
    assert s.replicas - {(db, r)} == map[];
    assert !IsPrimary(s, (db, r));
  }

  /** The world stands baited for `a`, which is on the wire. */
  ghost predicate Baited(y: System, steps: seq<Step>, z: System, a: Action) {
    && Leads(y, steps, z) && a in z.actions
    && a.database in z.desired && !Tame(z.desired, a)
    && z.state == Bait(z.desired, a) && y.state == z.state
  }

  lemma DeleteLoses(y: System, steps: seq<Step>, z: System, a: Action) returns (longer: seq<Step>)
    requires Baited(y, steps, z, a) && a.Delete?
    ensures Loses(y, longer, a.database)
  {
    hide Leads, After, Loses;
    longer := Landed(y, steps, z, a);
    OnlyPrimaryDeleted(a.database, a.region, Ready);
    Lost(y, longer, z.(state := After(z.state, a), actions := z.actions - multiset{a}), a.database);
  }

  /** The promotion lands, and then the delete its place was asked for as it stood before. */
  lemma PromoteLoses(y: System, steps: seq<Step>, z: System, a: Action) returns (longer: seq<Step>)
    requires Baited(y, steps, z, a) && a.Promote?
    ensures Loses(y, longer, a.database)
  {
    hide Leads, After, Loses, Reconcile;
    var db, r := a.database, a.region;
    longer := LookedAt(y, steps, z);
    var asked := z.(actions := z.actions + multiset(Reconcile(z.desired, z.state)));
    DeleteAsked(z.desired, z.state, db, r);
    assert Delete(db, r) in asked.actions;
    longer := Landed(y, longer, asked, a);
    var promoted := asked.(state := After(asked.state, a), actions := asked.actions - multiset{a});
    assert Delete(db, r) in promoted.actions;
    longer := Landed(y, longer, promoted, Delete(db, r));
    Promoting(db, z.desired[db].primary, r);
    Lost(y, longer, promoted.(state := After(promoted.state, Delete(db, r)),
                              actions := promoted.actions - multiset{Delete(db, r)}), db);
  }

  /** The standby's delete is asked for and repeated: it lands before the create and again after. */
  lemma CreateLoses(y: System, steps: seq<Step>, z: System, a: Action) returns (longer: seq<Step>)
    requires Baited(y, steps, z, a) && a.Create?
    ensures Loses(y, longer, a.database)
  {
    hide Leads, After, Loses, Reconcile;
    var db, r, delete := a.database, a.region, Delete(a.database, a.region);
    longer := LookedAt(y, steps, z);
    var asked := z.(actions := z.actions + multiset(Reconcile(z.desired, z.state)));
    DeleteAsked(z.desired, z.state, db, r);
    assert delete in asked.actions;
    longer := Taken(y, longer, asked, RepeatAction(delete));
    var twice := asked.(actions := asked.actions + multiset{delete});
    longer := Landed(y, longer, twice, delete);
    var gone := twice.(state := After(twice.state, delete), actions := twice.actions - multiset{delete});
    assert gone.actions == asked.actions && a in gone.actions;
    longer := Landed(y, longer, gone, a);
    var made := gone.(state := After(gone.state, a), actions := gone.actions - multiset{a});
    assert delete in made.actions;
    longer := Landed(y, longer, made, delete);
    Recreating(db, r);
    OnlyPrimaryDeleted(db, r, Provisioning);
    Lost(y, longer, made.(state := After(made.state, delete), actions := made.actions - multiset{delete}), db);
  }

  lemma UntameLoses(y: System, steps: seq<Step>, z: System, a: Action) returns (longer: seq<Step>)
    requires Baited(y, steps, z, a)
    ensures Loses(y, longer, a.database)
  {
    match a
    case Delete(_, _) => longer := DeleteLoses(y, steps, z, a);
    case Promote(_, _) => longer := PromoteLoses(y, steps, z, a);
    case Create(_, _, _) => longer := CreateLoses(y, steps, z, a);
  }

  /** Over a wire that is not calm there is a world an empty one can come to, and a run from it, that loses the
      database. */
  lemma NotCalmLoses(d: Desired, listings: multiset<Listing>, actions: multiset<Action>, database: Name)
    returns (events: seq<Event>, steps: seq<Step>)
    requires database in d && !Calm(System(d, NOTHING, listings, actions), database)
    ensures Loses(System(d, Happen(NOTHING, events), listings, actions), steps, database)
  {
    hide Loses, Leads, Happen, Reconcile;
    var a: Action;
    if action :| action in actions && action.database == database && !Tame(d, action) {
      a := action;
      var y := System(d, Bait(d, a), listings, actions);
      BaitReached(d, a);
      events := Baiting(d, a);
      Stay(y);
      steps := UntameLoses(y, [], y, a);
    } else {
      var listing :| listing in listings && !TameListing(d, database, listing);
      a :| a in Reconcile(listing.desired, listing.state) && a.database == database && !Tame(d, a);
      var y := System(d, Bait(d, a), listings, actions);
      BaitReached(d, a);
      events := Baiting(d, a);
      Stay(y);
      steps := Taken(y, [], y, Look(listing));
      steps := UntameLoses(y, steps, Next(y, Look(listing)), a);
    }
  }

  // ---------------------------------------------------------------------------------------------
  // The exact condition

  /** A wire is safe, wherever the replicas stand, exactly when it is calm; and one that is not calm is unsafe
      already in some world an empty one can come to. */
  lemma CalmExactly(d: Desired, listings: multiset<Listing>, actions: multiset<Action>, database: Name)
    requires database in d
    ensures Calm(System(d, NOTHING, listings, actions), database) <==> NeverLoses(d, listings, actions, database)
    ensures Calm(System(d, NOTHING, listings, actions), database) <==> NeverLosesReached(d, listings, actions, database)
  {
    if Calm(System(d, NOTHING, listings, actions), database) {
      CalmNeverLoses(d, listings, actions, database);
    } else {
      var events, steps := NotCalmLoses(d, listings, actions, database);
      hide Happen, Run, Possible, Calm;
      assert Loses(System(d, Happen(NOTHING, events), listings, actions), steps, database);
    }
  }

  lemma CalmNeverLoses(d: Desired, listings: multiset<Listing>, actions: multiset<Action>, database: Name)
    requires database in d && Calm(System(d, NOTHING, listings, actions), database)
    ensures NeverLoses(d, listings, actions, database) && NeverLosesReached(d, listings, actions, database)
  {
    hide Happen, Run, Possible;
    forall s: State, steps: seq<Step> | database !in s.lost && Possible(System(d, s, listings, actions), steps)
                                        && Unchanging(steps)
      ensures database !in Run(System(d, s, listings, actions), steps).state.lost
    {
      AsynchronousSafety(System(d, s, listings, actions), steps, database);
    }
  }

  /** What is wanted may change for `database` exactly when the wire is calm about it under the new placement:
      then no run from there loses it wherever the replicas stand, and otherwise some run from some world does. */
  lemma ChangeIsSafeIffCalm(y: System, database: Name, placement: Placement)
    ensures var z := Next(y, Change(database, placement));
            Calm(z, database) <==> NeverLoses(z.desired, y.listings, y.actions, database)
  {
    hide NeverLoses, NeverLosesReached, TameListing, Tame;
    var z := Next(y, Change(database, placement));
    CalmExactly(z.desired, y.listings, y.actions, database);
  }

  // ---------------------------------------------------------------------------------------------
  // One such run, whole

  /** A delete of west is on its way when west is wanted as primary: the promotion overtakes it. */
  lemma Overtaken(z: System, db: Name, east: Region, west: Region) returns (steps: seq<Step>)
    requires east != west && db in z.desired && z.desired[db].primary == west && Delete(db, west) in z.actions
    requires z.state == Two(db, east, Replica(Primary, Provisioning), west, Replica(Standby, Ready))
    ensures Loses(z, steps, db)
  {
    hide Leads, After, Loses, Reconcile;
    var promote, delete := Promote(db, west), Delete(db, west);
    Stay(z);
    steps := LookedAt(z, [], z);
    var both := z.(actions := z.actions + multiset(Reconcile(z.desired, z.state)));
    ReconcileExact(z.desired, z.state, promote);
    assert promote in both.actions;
    steps := Landed(z, steps, both, promote);
    var promoted := both.(state := After(both.state, promote), actions := both.actions - multiset{promote});
    assert delete in promoted.actions;
    steps := Landed(z, steps, promoted, delete);
    Promoting(db, east, west);
    Lost(z, steps, promoted.(state := After(promoted.state, delete), actions := promoted.actions - multiset{delete}), db);
  }

  /** Two regions, in a world an empty one comes to with nothing on the wire: west, wanted for nothing, is then
      wanted as primary while its delete is on its way, and the data is lost. */
  lemma ChangeInFlightLosesData(db: Name, east: Region, west: Region) returns (y: System, steps: seq<Step>)
    requires east != west
    ensures Idle(y) && Possible(y, steps) && exists events :: Happen(NOTHING, events) == y.state
    ensures db in y.desired && db !in y.state.lost
    ensures db in Run(y, steps).state.lost
  {
    hide Reconcile, Run, Possible, Happen;
    var s := Two(db, east, Replica(Primary, Provisioning), west, Replica(Standby, Ready));
    TwoReached(db, east, west);
    var d: Desired := map[db := Placement(east, {})];
    y := System(d, s, multiset{}, multiset{});
    Stay(y);
    steps := LookedAt(y, [], y);
    var asked := y.(actions := y.actions + multiset(Reconcile(d, s)));
    DeleteAsked(d, s, db, west);
    assert Delete(db, west) in asked.actions;
    var change := Change(db, Placement(west, {east}));
    PossibleSnoc(y, steps, change);
    var rest := Overtaken(Next(asked, change), db, east, west);
    RunsOn(y, steps + [change], Next(asked, change), rest);
    steps := steps + [change] + rest;
  }

  lemma PossibleFront(z: System, rest: seq<Step>)
    requires Possible(z, rest) && rest != []
    ensures var front, last := rest[..|rest| - 1], rest[|rest| - 1];
            Possible(z, front) && Enabled(Run(z, front), last) && Run(z, rest) == Next(Run(z, front), last)
  {
    hide Next, Enabled;
    var front := rest[..|rest| - 1];
    forall i | 0 <= i < |front| ensures Enabled(Run(z, front[..i]), front[i]) {
      assert rest[..i] == front[..i];
    }
  }

  /** A run taken up where another leaves off. */
  lemma {:induction false} RunsOn(y: System, steps: seq<Step>, z: System, rest: seq<Step>)
    requires Possible(y, steps) && Run(y, steps) == z && Possible(z, rest)
    ensures Possible(y, steps + rest) && Run(y, steps + rest) == Run(z, rest)
  {
    hide Next, Enabled, Possible;
    if rest == [] {
      assert steps + rest == steps;
    } else {
      var n := |rest| - 1;
      PossibleFront(z, rest);
      RunsOn(y, steps, z, rest[..n]);
      PossibleSnoc(y, steps + rest[..n], rest[n]);
      assert steps + rest[..n] + [rest[n]] == steps + rest;
    }
  }
}
