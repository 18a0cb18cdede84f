/** The reconciler as an asynchronous protocol: a server, a controller, and a wire that may delay,
    reorder, lose or repeat whatever it carries. */
module ReconcilerAsync {
  import opened Reconciler
  import opened Wrappers

  /** What a listing carries: what was wanted and what existed when it was answered. */
  datatype Listing = Listing(desired: Desired, state: State)

  datatype System = System(
    desired: Desired,
    state: State,
    listings: multiset<Listing>,
    actions: multiset<Action>)

  datatype Step =
    | Answer                                      // the server answers a request for a listing
    | Look(listing: Listing)                      // a listing arrives, and what it calls for is sent
    | Land(action: Action)                        // an action arrives and is carried out
    | Tick(key: Key)                              // a replica's time comes
    | LoseListing(listing: Listing)
    | LoseAction(action: Action)
    | RepeatListing(listing: Listing)
    | RepeatAction(action: Action)
    | Change(database: Name, placement: Placement)  // what is wanted changes

  ghost predicate Enabled(y: System, step: Step) {
    match step
    case Answer => true
    case Look(listing) => listing in y.listings
    case Land(action) => action in y.actions
    case Tick(key) => CanAdvance(y.state, key)
    case LoseListing(listing) => listing in y.listings
    case LoseAction(action) => action in y.actions
    case RepeatListing(listing) => listing in y.listings
    case RepeatAction(action) => action in y.actions
    case Change(_, _) => true
  }

  function Next(y: System, step: Step): System {
    match step
    case Answer => y.(listings := y.listings + multiset{Listing(y.desired, y.state)})
    case Look(listing) =>
      y.(listings := y.listings - multiset{listing},
         actions := y.actions + multiset(Reconcile(listing.desired, listing.state)))
    case Land(action) =>
      y.(state := After(y.state, action), actions := y.actions - multiset{action})
    case Tick(key) => y.(state := Advanced(y.state, key))
    case LoseListing(listing) => y.(listings := y.listings - multiset{listing})
    case LoseAction(action) => y.(actions := y.actions - multiset{action})
    case RepeatListing(listing) => y.(listings := y.listings + multiset{listing})
    case RepeatAction(action) => y.(actions := y.actions + multiset{action})
    case Change(database, placement) => y.(desired := y.desired[database := placement])
  }

  /** Of the messages on their way, a listing read or lost is one fewer and one repeated is one more, and so is an action
      landed, lost or repeated; reading a listing also puts on its way whatever it calls for. Nothing else on its way
      changes. */
  lemma WireMoves(y: System, step: Step, listing: Listing, action: Action)
    requires Enabled(y, step)
    ensures var z := Next(y, step);
            && z.listings[listing] == y.listings[listing]
                 + (if step == RepeatListing(listing) || (step.Answer? && listing == Listing(y.desired, y.state)) then 1 else 0)
                 - (if step == Look(listing) || step == LoseListing(listing) then 1 else 0)
            && z.actions[action] == y.actions[action]
                 + (if step == RepeatAction(action) then 1 else 0)
                 + (if step.Look? then multiset(Reconcile(step.listing.desired, step.listing.state))[action] else 0)
                 - (if step == Land(action) || step == LoseAction(action) then 1 else 0)
            && (!step.Land? && !step.Tick? ==> z.state == y.state)
            && (!step.Change? ==> z.desired == y.desired)
  {
    hide Reconcile, After, Advanced, CanAdvance;
    match step
    case Answer =>
    case Look(_) =>
    case _ =>
  }

  function Run(y: System, steps: seq<Step>): System {
    if steps == [] then y else Next(Run(y, steps[..|steps| - 1]), steps[|steps| - 1])
  }

  /** Every step of the run was possible when it was taken. */
  ghost predicate Possible(y: System, steps: seq<Step>) {
    forall i :: 0 <= i < |steps| ==> Enabled(Run(y, steps[..i]), steps[i])
  }

  predicate Idle(y: System) {
    |y.listings| == 0 && |y.actions| == 0
  }

  // ---------------------------------------------------------------------------------------------
  // What may be on the wire

  /** An action that cannot cost a database its data whatever world it lands on: not a delete, and no primary
      but where one is wanted. */
  predicate Tame(d: Desired, action: Action) {
    match action
    case Create(database, region, role) => role == Primary ==> Wanted(d, (database, region))
    case Promote(database, region) => Wanted(d, (database, region))
    case Delete(_, _) => false
  }

  predicate TameListing(d: Desired, database: Name, listing: Listing) {
    forall a :: a in Reconcile(listing.desired, listing.state) && a.database == database ==> Tame(d, a)
  }

  /** Nothing the wire carries about `database`, as an action or as what a listing would call for, can cost it
      its data under what is wanted now. */
  predicate Calm(y: System, database: Name) {
    && (forall a :: a in y.actions && a.database == database ==> Tame(y.desired, a))
    && (forall listing :: listing in y.listings ==> TameListing(y.desired, database, listing))
  }

  /** Whenever what is wanted of `database` changes, the wire is calm about it under the new placement. */
  ghost predicate ChangesCalmly(y: System, steps: seq<Step>, database: Name) {
    forall i :: 0 <= i < |steps| && steps[i].Change? && steps[i].database == database ==>
      Calm(Next(Run(y, steps[..i]), steps[i]), database)
  }

  ghost predicate Unchanging(steps: seq<Step>) {
    forall i :: 0 <= i < |steps| ==> !steps[i].Change?
  }

  // ---------------------------------------------------------------------------------------------
  // The invariant

  /** An action on the wire that cannot cost the wanted `database` its data in the world as it is: a primary is
      made or promoted only where one is wanted, and a delete names a place wanted for nothing that holds no
      primary. */
  ghost predicate Harmless(d: Desired, s: State, action: Action) {
    match action
    case Create(database, region, role) => role == Primary ==> Wanted(d, (database, region))
    case Promote(database, region) => Wanted(d, (database, region))
    case Delete(database, region) => !Wanted(d, (database, region)) && !IsPrimary(s, (database, region))
  }

  /** A listing of what is still wanted of `database`, and a place wanted for nothing that it shows without a
      primary has none now. */
  ghost predicate Faithful(d: Desired, s: State, database: Name, listing: Listing) {
    && database in d && database in listing.desired && listing.desired[database] == d[database]
    && forall key: Key :: key.0 == database && !Wanted(d, key) && !IsPrimary(listing.state, key)
         ==> !IsPrimary(s, key)
  }

  ghost predicate Fit(d: Desired, s: State, database: Name, listing: Listing) {
    TameListing(d, database, listing) || Faithful(d, s, database, listing)
  }

  ghost predicate Safe(y: System, database: Name) {
    && database in y.desired
    && (forall action :: action in y.actions && action.database == database
          ==> Harmless(y.desired, y.state, action))
    && (forall listing :: listing in y.listings ==> Fit(y.desired, y.state, database, listing))
  }

  lemma CalmIsSafe(y: System, database: Name)
    requires database in y.desired && Calm(y, database)
    ensures Safe(y, database)
  {
    hide TameListing, Faithful;
  }

  /** The heart of it: nothing harmless puts a primary where none is wanted. */
  lemma NeverPrimaryAgain(d: Desired, s: State, action: Action, key: Key)
    requires key.0 in d && !Wanted(d, key) && !IsPrimary(s, key)
    requires action.database == key.0 ==> Harmless(d, s, action)
    ensures !IsPrimary(After(s, action), key)
  {}

  /** A step that makes no primary where none is wanted leaves every fitting listing fitting. */
  lemma StillFits(d: Desired, s: State, t: State, database: Name, listing: Listing)
    requires Fit(d, s, database, listing)
    requires forall key: Key :: key.0 == database && !Wanted(d, key) && !IsPrimary(s, key) ==> !IsPrimary(t, key)
    ensures Fit(d, t, database, listing)
  {
    hide TameListing, Wanted;
  }

  lemma LandKeepsSafe(y: System, action: Action, database: Name)
    requires Safe(y, database) && action in y.actions
    ensures Safe(Next(y, Land(action)), database)
    ensures database in Next(y, Land(action)).state.lost ==> database in y.state.lost
  {
    hide Fit;
    var z := Next(y, Land(action));
    forall key: Key | key.0 == database && !Wanted(y.desired, key) && !IsPrimary(y.state, key)
      ensures !IsPrimary(z.state, key)
    {
      NeverPrimaryAgain(y.desired, y.state, action, key);
    }
    forall b | b in z.actions && b.database == database ensures Harmless(z.desired, z.state, b) {
      assert b in y.actions;
      assert Harmless(y.desired, y.state, b);
    }
    forall l | l in z.listings ensures Fit(z.desired, z.state, database, l) {
      StillFits(y.desired, y.state, z.state, database, l);
    }
  }

  /** What a faithful listing calls for is harmless now. */
  lemma DecidedHarmless(d: Desired, s: State, listing: Listing, action: Action)
    requires Faithful(d, s, action.database, listing)
    requires Decide(listing.desired, listing.state, Place(action)) == Some(action)
    ensures Harmless(d, s, action)
  {}

  lemma CalledHarmless(d: Desired, s: State, listing: Listing, action: Action)
    requires Fit(d, s, action.database, listing) && action in Reconcile(listing.desired, listing.state)
    ensures Harmless(d, s, action)
  {
    hide Reconcile, Decide, Faithful;
    if !TameListing(d, action.database, listing) {
      ReconcileExact(listing.desired, listing.state, action);
      DecidedHarmless(d, s, listing, action);
    }
  }

  lemma LookKeepsSafe(y: System, listing: Listing, database: Name)
    requires Safe(y, database) && listing in y.listings
    ensures Safe(Next(y, Look(listing)), database)
  {
    hide Fit, Harmless, Reconcile;
    var z := Next(y, Look(listing));
    forall b | b in z.actions && b.database == database ensures Harmless(z.desired, z.state, b) {
      if b !in y.actions {
        CalledHarmless(y.desired, y.state, listing, b);
      }
    }
    forall l | l in z.listings ensures Fit(z.desired, z.state, database, l) {
      assert l in y.listings;
    }
  }

  lemma StepKeepsSafe(y: System, step: Step, database: Name)
    requires Safe(y, database) && Enabled(y, step)
    requires step.Change? && step.database == database ==> Calm(Next(y, step), database)
    ensures Safe(Next(y, step), database)
    ensures database in Next(y, step).state.lost ==> database in y.state.lost
  {
    hide Safe, Calm, Reconcile, After, Advanced;
    match step
    case Look(listing) => LookKeepsSafe(y, listing, database);
    case Land(action) => LandKeepsSafe(y, action, database);
    case Tick(key) => TickKeepsSafe(y, key, database);
    case Change(changed, placement) => ChangeKeepsSafe(y, changed, placement, database);
    case Answer => AnswerKeepsSafe(y, database);
    case _ => WireKeepsSafe(y, step, database);
  }

  lemma AnswerKeepsSafe(y: System, database: Name)
    requires Safe(y, database)
    ensures Safe(Next(y, Answer), database)
  {
    hide Harmless, TameListing, Wanted, IsPrimary;
  }

  lemma TickKeepsSafe(y: System, key: Key, database: Name)
    requires Safe(y, database) && Enabled(y, Tick(key))
    ensures Safe(Next(y, Tick(key)), database)
    ensures Next(y, Tick(key)).state.lost == y.state.lost
  {
    hide Fit, Reconcile;
    var z := Next(y, Tick(key));
    forall l | l in z.listings ensures Fit(z.desired, z.state, database, l) {
      StillFits(y.desired, y.state, z.state, database, l);
    }
  }

  /** What is wanted of another database is no matter to this one. */
  lemma ChangeKeepsSafe(y: System, changed: Name, placement: Placement, database: Name)
    requires Safe(y, database)
    requires changed == database ==> Calm(Next(y, Change(changed, placement)), database)
    ensures Safe(Next(y, Change(changed, placement)), database)
  {
    var z := Next(y, Change(changed, placement));
    if changed == database {
      CalmIsSafe(z, database);
    } else {
      assert forall key: Key :: key.0 == database ==> (Wanted(z.desired, key) <==> Wanted(y.desired, key));
      forall l | l in z.listings ensures Fit(z.desired, z.state, database, l) {
        assert Fit(y.desired, y.state, database, l);
        SameFit(y.desired, z.desired, y.state, database, l);
      }
    }
  }

  lemma SameFit(d: Desired, e: Desired, s: State, database: Name, listing: Listing)
    requires Fit(d, s, database, listing)
    requires database in d && database in e && e[database] == d[database]
    ensures Fit(e, s, database, listing)
  {
    hide Reconcile;
    assert forall key: Key :: key.0 == database ==> (Wanted(e, key) <==> Wanted(d, key));
    if TameListing(d, database, listing) {
      forall a | a in Reconcile(listing.desired, listing.state) && a.database == database ensures Tame(e, a) {
        assert Tame(d, a);
      }
    }
  }

  /** What the wire loses or repeats changes nothing about what is on it. */
  lemma WireKeepsSafe(y: System, step: Step, database: Name)
    requires Safe(y, database) && Enabled(y, step)
    requires step.LoseListing? || step.LoseAction? || step.RepeatListing? || step.RepeatAction?
    ensures Safe(Next(y, step), database) && Next(y, step).state == y.state
  {
    hide Harmless, Fit;
  }

  lemma {:induction false} RunKeepsSafe(y: System, steps: seq<Step>, database: Name)
    requires Safe(y, database)
    requires Possible(y, steps) && ChangesCalmly(y, steps, database)
    ensures Safe(Run(y, steps), database)
    ensures database in Run(y, steps).state.lost ==> database in y.state.lost
  {
    hide Safe, Calm, Next, Enabled;
    if steps != [] {
      var n := |steps| - 1;
      var front := steps[..n];
      forall i | 0 <= i < n ensures steps[..i] == front[..i] && steps[i] == front[i] {}
      RunKeepsSafe(y, front, database);
      assert Enabled(Run(y, steps[..n]), steps[n]);
      StepKeepsSafe(Run(y, front), steps[n], database);
    }
  }

  /** No run loses the data of a database that was wanted and not lost when it began over a wire calm about it,
      whatever the wire does with listings and actions and whenever replicas move on. What is wanted may change
      on the way: of any other database at any time, and of this one whenever the wire is calm about it under
      the new placement. The world the run starts from is any world at all. */
  lemma AsynchronousSafety(y: System, steps: seq<Step>, database: Name)
    requires Calm(y, database)
    requires database in y.desired && database !in y.state.lost
    requires Possible(y, steps) && ChangesCalmly(y, steps, database)
    ensures database !in Run(y, steps).state.lost
  {
    CalmIsSafe(y, database);
    RunKeepsSafe(y, steps, database);
  }

  /** With what is wanted held fixed and nothing on the wire, there is nothing left to ask of the run but that
      it is one. */
  lemma FixedDesiredIsSafe(y: System, steps: seq<Step>)
    requires Idle(y) && Possible(y, steps) && Unchanging(steps)
    ensures Run(y, steps).state.lost * y.desired.Keys <= y.state.lost
  {
    hide Run, Possible;
    assert y.listings == multiset{} && y.actions == multiset{};
    forall database | database in Run(y, steps).state.lost && database in y.desired
      ensures database in y.state.lost
    {
      if database !in y.state.lost {
        AsynchronousSafety(y, steps, database);
      }
    }
  }
}
