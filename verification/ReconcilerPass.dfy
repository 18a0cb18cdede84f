/** One pass of the reconciler, whatever order its actions land in, and the passes that converge. */
module ReconcilerPass {
  import opened Reconciler
  import opened Wrappers

  // ---------------------------------------------------------------------------------------------
  // What a pass leaves behind, place by place

  function At(s: State, key: Key): Option<Replica> {
    if key in s.replicas then Some(s.replicas[key]) else None
  }

  /** Whether the pass asked for a promotion of `database`, and it is among `done`. */
  predicate Promotes(d: Desired, database: Name, done: set<Action>) {
    database in d && Promote(database, d[database].primary) in done
  }

  /** What stands at `key` once the actions in `done`, all of them asked for by one pass over `s`,
      have landed. */
  function Left(d: Desired, s: State, done: set<Action>, key: Key): Option<Replica> {
    var asked := Decide(d, s, key);
    if asked.Some? && asked.value in done then
      match asked.value
      case Create(_, _, role) => Some(Replica(role, Provisioning))
      case Promote(_, _) => Some(Replica(Primary, Ready))
      case Delete(_, _) => None
    else if IsPrimary(s, key) && Promotes(d, key.0, done) then Some(s.replicas[key].(role := Standby))
    else At(s, key)
  }

  function Members(actions: seq<Action>): set<Action> {
    set a | a in actions
  }

  ghost predicate FromPass(d: Desired, s: State, actions: seq<Action>) {
    forall a :: a in actions ==> Decide(d, s, Place(a)) == Some(a)
  }

  ghost predicate LeftBy(d: Desired, s: State, done: set<Action>, t: State) {
    && (forall key :: At(t, key) == Left(d, s, done, key))
    && (forall database :: database in d ==> (database in t.lost <==> database in s.lost))
  }

  /** One more of the pass's actions landing. */
  lemma CreateLands(d: Desired, s: State, done: set<Action>, t: State, a: Action)
    requires a.Create? && Decide(d, s, Place(a)) == Some(a)
    requires forall b :: b in done ==> Decide(d, s, Place(b)) == Some(b)
    requires LeftBy(d, s, done, t)
    ensures LeftBy(d, s, done + {a}, After(t, a))
  {
    var u := After(t, a);
    var key := Place(a);
    assert At(t, key) == Left(d, s, done, key);
    if a !in done && a.role == Primary {
      forall k: Key | k.0 == a.database && k in t.replicas ensures !IsPrimary(t, k) {
        assert At(t, k) == Left(d, s, done, k);
        assert !IsPrimary(s, k);
      }
    }
    forall k ensures At(u, k) == Left(d, s, done + {a}, k) {
      assert At(t, k) == Left(d, s, done, k);
    }
  }

  lemma PromoteLands(d: Desired, s: State, done: set<Action>, t: State, a: Action)
    requires a.Promote? && Decide(d, s, Place(a)) == Some(a)
    requires forall b :: b in done ==> Decide(d, s, Place(b)) == Some(b)
    requires LeftBy(d, s, done, t)
    ensures LeftBy(d, s, done + {a}, After(t, a))
  {
    var u := After(t, a);
    assert At(t, Place(a)) == Left(d, s, done, Place(a));
    forall k ensures At(u, k) == Left(d, s, done + {a}, k) {
      assert At(t, k) == Left(d, s, done, k);
      if k.0 == a.database && k != Place(a) {
        var asked := Decide(d, s, k);
        if asked.Some? && asked.value in done {
          assert asked.value.Create? ==> asked.value.role == Standby;
        }
      }
    }
  }

  lemma DeleteLands(d: Desired, s: State, done: set<Action>, t: State, a: Action)
    requires a.Delete? && Decide(d, s, Place(a)) == Some(a)
    requires forall b :: b in done ==> Decide(d, s, Place(b)) == Some(b)
    requires LeftBy(d, s, done, t)
    ensures LeftBy(d, s, done + {a}, After(t, a))
  {
    var u := After(t, a);
    assert At(t, Place(a)) == Left(d, s, done, Place(a));
    forall k ensures At(u, k) == Left(d, s, done + {a}, k) {
      assert At(t, k) == Left(d, s, done, k);
    }
  }

  lemma {:induction false} PassLeaves(d: Desired, s: State, actions: seq<Action>)
    requires FromPass(d, s, actions)
    ensures LeftBy(d, s, Members(actions), ApplyAll(s, actions))
  {
    if actions == [] {
      forall key ensures At(s, key) == Left(d, s, {}, key) {}
    } else {
      var front := actions[..|actions| - 1];
      var a := actions[|actions| - 1];
      assert actions == front + [a];
      assert Members(actions) == Members(front) + {a};
      PassLeaves(d, s, front);
      match a
      case Create(_, _, _) => CreateLands(d, s, Members(front), ApplyAll(s, front), a);
      case Promote(_, _) => PromoteLands(d, s, Members(front), ApplyAll(s, front), a);
      case Delete(_, _) => DeleteLands(d, s, Members(front), ApplyAll(s, front), a);
    }
  }

  /** Any two ways one pass's actions can land, in whatever order and with whatever repeated, leave
      the same replicas, and neither costs a wanted database its data. */
  lemma PassConfluent(d: Desired, s: State, p: seq<Action>, q: seq<Action>)
    requires forall a :: a in p <==> a in q
    requires forall a :: a in p ==> a in Reconcile(d, s)
    ensures ApplyAll(s, p).replicas == ApplyAll(s, q).replicas
    ensures ApplyAll(s, p).lost * d.Keys == ApplyAll(s, q).lost * d.Keys == s.lost * d.Keys
  {
    hide Reconcile, Decide, After, Left, LeftBy;
    forall a | a in p ensures Decide(d, s, Place(a)) == Some(a) {
      ReconcileExact(d, s, a);
    }
    PassLeaves(d, s, p);
    PassLeaves(d, s, q);
    assert Members(p) == Members(q);
    LeftAlike(d, s, Members(p), ApplyAll(s, p), ApplyAll(s, q));
  }

  lemma LeftAlike(d: Desired, s: State, landed: set<Action>, t: State, u: State)
    requires LeftBy(d, s, landed, t) && LeftBy(d, s, landed, u)
    ensures t.replicas == u.replicas && t.lost * d.Keys == u.lost * d.Keys == s.lost * d.Keys
  {
    hide Left;
    forall key ensures At(t, key) == At(u, key) {
      assert At(t, key) == Left(d, s, landed, key);
    }
    SameEverywhere(t, u);
  }

  lemma SameEverywhere(t: State, u: State)
    requires forall key :: At(t, key) == At(u, key)
    ensures t.replicas == u.replicas
  {
    forall key ensures key in t.replicas <==> key in u.replicas {
      assert At(t, key) == At(u, key);
    }
    forall key | key in t.replicas ensures t.replicas[key] == u.replicas[key] {
      assert At(t, key) == At(u, key);
    }
  }

  // ---------------------------------------------------------------------------------------------
  // Letting time pass

  ghost predicate AllReady(s: State) {
    forall key :: key in s.replicas ==> s.replicas[key].phase == Ready
  }

  function Settle(s: State): State {
    s.(replicas := map key | key in s.replicas :: s.replicas[key].(phase := Ready))
  }

  function Ticks(s: State, keys: seq<Key>): State
    decreases |keys|
  {
    if keys == [] then s else Ticks(Advanced(s, keys[0]), keys[1..])
  }

  /** However replicas' times come, once none has anywhere left to go they stand where settling puts
      them: in the roles they had, ready. */
  lemma {:induction false} TicksSettle(s: State, keys: seq<Key>)
    ensures Settle(Ticks(s, keys)) == Settle(s)
    ensures AllReady(Ticks(s, keys)) ==> Ticks(s, keys) == Settle(s)
    decreases |keys|
  {
    if keys != [] {
      var t := Advanced(s, keys[0]);
      assert Settle(t).replicas == Settle(s).replicas;
      TicksSettle(t, keys[1..]);
    }
    var u := Ticks(s, keys);
    if AllReady(u) {
      assert Settle(u).replicas == u.replicas;
    }
  }

  /** One round: a pass over `s`, its actions landing in some order, and time until nothing moves. */
  ghost predicate Round(d: Desired, s: State, t: State, landed: seq<Action>, keys: seq<Key>) {
    && (forall a :: a in landed <==> a in Reconcile(d, s))
    && t == Ticks(ApplyAll(s, landed), keys)
    && AllReady(t)
  }

  /** The role a round that began in `s` leaves at `key`, if it leaves a replica there. */
  function RoleAfter(d: Desired, s: State, key: Key): Option<Role> {
    match Decide(d, s, key)
    case Some(Create(_, _, role)) => Some(role)
    case Some(Promote(_, _)) => Some(Primary)
    case Some(Delete(_, _)) => None
    case None =>
      if key !in s.replicas then None
      else if IsPrimary(s, key) && key.0 in d && InSync(s, (key.0, d[key.0].primary)) then Some(Standby)
      else Some(s.replicas[key].role)
  }

  ghost predicate RoundLeaves(d: Desired, s: State, t: State) {
    && (forall key :: key in t.replicas ==> t.replicas[key].phase == Ready)
    && (forall key :: key in t.replicas <==> RoleAfter(d, s, key).Some?)
    && (forall key :: key in t.replicas ==> t.replicas[key].role == RoleAfter(d, s, key).value)
    && (forall database :: database in d ==> (database in t.lost <==> database in s.lost))
  }

  lemma LeftByWholePass(d: Desired, s: State, key: Key)
    ensures var left := Left(d, s, Members(Reconcile(d, s)), key);
            && (left.Some? <==> RoleAfter(d, s, key).Some?)
            && (left.Some? ==> left.value.role == RoleAfter(d, s, key).value)
  {
    AllAsked(d, s, key);
    if key.0 in d { PromotesIffInSync(d, s, key.0); }
    LeftByAll(d, s, Members(Reconcile(d, s)), key);
  }

  lemma LeftByAll(d: Desired, s: State, done: set<Action>, key: Key)
    requires Decide(d, s, key).Some? ==> Decide(d, s, key).value in done
    requires key.0 in d ==> (Promotes(d, key.0, done) <==> InSync(s, (key.0, d[key.0].primary)))
    ensures Left(d, s, done, key).Some? <==> RoleAfter(d, s, key).Some?
    ensures Left(d, s, done, key).Some? ==> Left(d, s, done, key).value.role == RoleAfter(d, s, key).value
  {}

  lemma RoundExact(d: Desired, s: State, t: State, landed: seq<Action>, keys: seq<Key>)
    requires Round(d, s, t, landed, keys)
    ensures RoundLeaves(d, s, t)
  {
    forall a | a in landed ensures Decide(d, s, Place(a)) == Some(a) {
      ReconcileExact(d, s, a);
    }
    PassLeaves(d, s, landed);
    assert Members(landed) == Members(Reconcile(d, s));
    var u := ApplyAll(s, landed);
    TicksSettle(u, keys);
    assert t == Settle(u);
    forall key
      ensures key in t.replicas <==> RoleAfter(d, s, key).Some?
      ensures key in t.replicas ==> t.replicas[key].role == RoleAfter(d, s, key).value
    {
      assert At(u, key) == Left(d, s, Members(landed), key);
      LeftByWholePass(d, s, key);
    }
  }

  // ---------------------------------------------------------------------------------------------
  // The stages a database goes through

  ghost predicate OnePrimary(s: State, database: Name) {
    forall k: Key, l: Key :: k.0 == database && l.0 == database && IsPrimary(s, k) && IsPrimary(s, l) ==> k == l
  }

  /** Every replica wanted of the database is there, and its one primary is all that need not be. */
  ghost predicate Waiting(d: Desired, s: State, database: Name) {
    && database in d && OnePrimary(s, database)
    && (forall key: Key :: key.0 == database && Wanted(d, key) ==> key in s.replicas)
    && (forall key: Key :: key.0 == database && key in s.replicas && !Wanted(d, key) ==> IsPrimary(s, key))
  }

  /** The primary is where it is wanted, every standby wanted is there, and standbys may be left over. */
  ghost predicate SteppedDown(d: Desired, s: State, database: Name) {
    && database in d && OnePrimary(s, database)
    && IsPrimary(s, (database, d[database].primary))
    && (forall key: Key :: key.0 == database && Wanted(d, key) ==> key in s.replicas)
  }

  /** The database stands exactly where it is wanted. */
  ghost predicate InPlace(d: Desired, s: State, database: Name) {
    forall key: Key :: key.0 == database ==>
      (key in s.replicas <==> Wanted(d, key))
      && (Wanted(d, key) ==> s.replicas[key] == Replica(RoleWanted(d, key), Ready))
  }

  /** Whether what exists is exactly what is wanted. */
  ghost predicate Converged(d: Desired, s: State) {
    forall database :: InPlace(d, s, database)
  }

  /** What was decided at `key` is among what landed, whatever `key`. */
  lemma AllAsked(d: Desired, s: State, key: Key)
    ensures Decide(d, s, key).Some? ==> Decide(d, s, key).value in Members(Reconcile(d, s))
  {
    if Decide(d, s, key).Some? {
      ReconcileExact(d, s, Decide(d, s, key).value);
    }
  }

  lemma PromotesIffInSync(d: Desired, s: State, database: Name)
    requires database in d
    ensures Promotes(d, database, Members(Reconcile(d, s))) <==> InSync(s, (database, d[database].primary))
  {
    ReconcileExact(d, s, Promote(database, d[database].primary));
  }

  lemma RoundKeepsOnePrimary(d: Desired, s: State, t: State, database: Name)
    requires RoundLeaves(d, s, t) && OnePrimary(s, database)
    ensures OnePrimary(t, database)
  {
    forall k: Key, l: Key | k.0 == database && l.0 == database && IsPrimary(t, k) && IsPrimary(t, l) ensures k == l {
      assert RoleAfter(d, s, k) == Some(Primary) && RoleAfter(d, s, l) == Some(Primary);
      PrimaryAfter(d, s, k);
      PrimaryAfter(d, s, l);
    }
  }

  /** Where a round leaves a primary: where one is created or promoted, or where it already was. */
  lemma PrimaryAfter(d: Desired, s: State, key: Key)
    requires RoleAfter(d, s, key) == Some(Primary)
    ensures key.0 in d
    ensures if !HasPrimary(s, key.0) || InSync(s, (key.0, d[key.0].primary))
            then key.1 == d[key.0].primary
            else IsPrimary(s, key)
  {}

  lemma FirstRound(d: Desired, s: State, t: State, database: Name)
    requires RoundLeaves(d, s, t) && OnePrimary(s, database)
    ensures if database in d then Waiting(d, t, database) || SteppedDown(d, t, database) else InPlace(d, t, database)
  {
    RoundKeepsOnePrimary(d, s, t, database);
    if database in d {
      var p := (database, d[database].primary);
      if InSync(s, p) {
        assert RoleAfter(d, s, p) == Some(Primary);
        assert IsPrimary(t, p);
      } else {
        forall key: Key | key.0 == database && key in t.replicas && !Wanted(d, key) ensures IsPrimary(t, key) {
          assert RoleAfter(d, s, key) == Some(Primary);
        }
      }
    }
  }

  lemma SecondRound(d: Desired, s: State, t: State, database: Name)
    requires RoundLeaves(d, s, t) && Waiting(d, s, database) && AllReady(s)
    ensures SteppedDown(d, t, database)
  {
    RoundKeepsOnePrimary(d, s, t, database);
    var p := (database, d[database].primary);
    assert Wanted(d, p) && p in s.replicas;
    assert RoleAfter(d, s, p) == Some(Primary);
  }

  lemma LastRound(d: Desired, s: State, t: State, database: Name)
    requires RoundLeaves(d, s, t) && SteppedDown(d, s, database) && AllReady(s)
    ensures InPlace(d, t, database)
  {
    var p := (database, d[database].primary);
    assert IsPrimary(s, p) && !InSync(s, p);
    forall key: Key | key.0 == database
      ensures key in t.replicas <==> Wanted(d, key)
      ensures Wanted(d, key) ==> t.replicas[key] == Replica(RoleWanted(d, key), Ready)
    {
      if key != p { assert !IsPrimary(s, key); }
    }
  }

  lemma InPlaceStays(d: Desired, s: State, t: State, database: Name)
    requires RoundLeaves(d, s, t) && InPlace(d, s, database)
    ensures InPlace(d, t, database)
  {
    if database in d {
      assert Wanted(d, (database, d[database].primary));
    }
    forall key: Key | key.0 == database
      ensures key in t.replicas <==> Wanted(d, key)
      ensures Wanted(d, key) ==> t.replicas[key] == Replica(RoleWanted(d, key), Ready)
    {
    }
  }

  lemma InPlaceIsSteppedDown(d: Desired, s: State, database: Name)
    requires database in d && InPlace(d, s, database)
    ensures SteppedDown(d, s, database)
  {
    assert Wanted(d, (database, d[database].primary));
  }

  lemma ThreeRounds(d: Desired, s: State, t: State, u: State, v: State, database: Name)
    requires OnePrimary(s, database)
    requires RoundLeaves(d, s, t) && RoundLeaves(d, t, u) && RoundLeaves(d, u, v)
    ensures InPlace(d, v, database)
  {
    FirstRound(d, s, t, database);
    if database !in d {
      InPlaceStays(d, t, u, database);
      InPlaceStays(d, u, v, database);
    } else {
      if SteppedDown(d, t, database) {
        LastRound(d, t, u, database);
        InPlaceIsSteppedDown(d, u, database);
      } else {
        SecondRound(d, t, u, database);
      }
      LastRound(d, u, v, database);
    }
  }

  /** From any world with at most one primary to a database, three rounds reach exactly what is
      wanted, at which point nothing is left to ask for and no wanted database has lost anything on
      the way. It takes one to create, one to promote, and one to take away what stepped down. */
  lemma ThreeRoundsConverge(d: Desired, s: seq<State>, landed: seq<seq<Action>>, keys: seq<seq<Key>>)
    requires |s| == 4 && |landed| == |keys| == 3
    requires forall database :: OnePrimary(s[0], database)
    requires forall i :: 0 <= i < 3 ==> Round(d, s[i], s[i + 1], landed[i], keys[i])
    ensures Converged(d, s[3]) && Reconcile(d, s[3]) == []
    ensures s[3].lost * d.Keys == s[0].lost * d.Keys
  {
    hide Reconcile, Round, RoundLeaves, OnePrimary, InPlace;
    RoundExact(d, s[0], s[1], landed[0], keys[0]);
    RoundExact(d, s[1], s[2], landed[1], keys[1]);
    RoundExact(d, s[2], s[3], landed[2], keys[2]);
    forall database ensures InPlace(d, s[3], database) {
      assert OnePrimary(s[0], database);
      ThreeRounds(d, s[0], s[1], s[2], s[3], database);
    }
    ConvergedAsksNothing(d, s[3]);
  }

  lemma ConvergedAsksNothing(d: Desired, s: State)
    requires Converged(d, s)
    ensures Reconcile(d, s) == []
  {
    hide Reconcile;
    if Reconcile(d, s) != [] {
      var a := Reconcile(d, s)[0];
      ReconcileExact(d, s, a);
      ghost var placed := InPlace(d, s, a.database);
      assert false;
    }
  }

  /** In a settled world with at most one primary to a database, there is nothing to ask for exactly
      when there is nothing left to do. */
  lemma EmptyIffConverged(d: Desired, s: State)
    requires AllReady(s) && forall database :: OnePrimary(s, database)
    ensures Reconcile(d, s) == [] <==> Converged(d, s)
  {
    if Reconcile(d, s) == [] {
      forall database ensures InPlace(d, s, database) {
        NothingAsked(d, s, database);
      }
    } else {
      if Converged(d, s) { ConvergedAsksNothing(d, s); }
    }
  }

  lemma NothingAsked(d: Desired, s: State, database: Name)
    requires AllReady(s) && OnePrimary(s, database) && Reconcile(d, s) == []
    ensures InPlace(d, s, database)
  {
    hide Reconcile;
    if database in d {
      AllAsked(d, s, (database, d[database].primary));
    }
    forall key: Key | key.0 == database
      ensures key in s.replicas <==> Wanted(d, key)
      ensures Wanted(d, key) ==> s.replicas[key] == Replica(RoleWanted(d, key), Ready)
    {
      AllAsked(d, s, key);
      if database in d && IsPrimary(s, key) {
        assert key != (database, d[database].primary) ==> !IsPrimary(s, (database, d[database].primary));
      }
    }
  }
}
