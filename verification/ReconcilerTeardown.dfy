/** The last of a database wanted nowhere: its replicas all go in one pass, and the order they go in decides
    whether its data counts as destroyed on the way. */
module ReconcilerTeardown {
  import opened Reconciler
  import opened ReconcilerPass
  import opened Wrappers

  /** A whole pass: every action it asked for, in some order, each at least once. */
  ghost predicate WholePass(d: Desired, s: State, p: seq<Action>) {
    forall a :: a in p <==> a in Reconcile(d, s)
  }

  /** The delete at `i` takes away a primary that was still there, once no standby in sync is left. */
  ghost predicate Destroys(s: State, db: Name, p: seq<Action>, i: nat)
    requires i < |p|
  {
    && p[i].Delete? && p[i].database == db && IsPrimary(s, Place(p[i])) && p[i] !in p[..i]
    && forall key: Key :: key.0 == db && InSync(s, key) ==> Delete(db, key.1) in p[..i]
  }

  /** What a pass leaves of a database wanted nowhere: the replicas it has not deleted, as they were. */
  lemma LeftOfUnwanted(d: Desired, s: State, p: seq<Action>, key: Key)
    requires FromPass(d, s, p) && key.0 !in d
    ensures At(ApplyAll(s, p), key) == if Delete(key.0, key.1) in p then None else At(s, key)
  {
    PassLeaves(d, s, p);
    assert At(ApplyAll(s, p), key) == Left(d, s, Members(p), key);
  }

  /** Landing one more action loses the database exactly if that action destroys it. */
  lemma OneMoreLands(d: Desired, s: State, db: Name, p: seq<Action>, a: Action)
    requires FromPass(d, s, p + [a]) && db !in d
    ensures db in After(ApplyAll(s, p), a).lost <==> db in ApplyAll(s, p).lost || Destroys(s, db, p + [a], |p|)
  {
    var t, longer := ApplyAll(s, p), p + [a];
    assert longer[..|p|] == p && longer[|p|] == a;
    forall b | b in p ensures Decide(d, s, Place(b)) == Some(b) { assert b in longer; }
    if a.Delete? && a.database == db {
      LeftOfUnwanted(d, s, p, Place(a));
      var rest := t.(replicas := t.replicas - {Place(a)});
      forall key: Key | key.0 == db ensures At(t, key) == if Delete(db, key.1) in p then None else At(s, key) {
        LeftOfUnwanted(d, s, p, key);
      }
      assert IsPrimary(t, Place(a)) <==> IsPrimary(s, Place(a)) && a !in p;
      if IsPrimary(t, Place(a)) {
        SyncLeft(s, db, p, a, t, rest);
      }
    }
  }

  lemma SyncLeft(s: State, db: Name, p: seq<Action>, a: Action, t: State, rest: State)
    requires a.Delete? && a.database == db && IsPrimary(s, Place(a))
    requires rest == t.(replicas := t.replicas - {Place(a)})
    requires forall key: Key :: key.0 == db ==> At(t, key) == if Delete(db, key.1) in p then None else At(s, key)
    ensures HasStandbyInSync(rest, db) <==> exists key: Key :: key.0 == db && InSync(s, key) && Delete(db, key.1) !in p
  {
    if HasStandbyInSync(rest, db) {
      var key :| key in rest.replicas && key.0 == db && InSync(rest, key);
      assert At(t, key) == Some(rest.replicas[key]);
      assert InSync(s, key);
    }
    forall key: Key | key.0 == db && InSync(s, key) && Delete(db, key.1) !in p ensures HasStandbyInSync(rest, db) {
      assert At(t, key) == At(s, key);
      assert key in rest.replicas && InSync(rest, key);
    }
  }

  /** A database wanted nowhere is lost exactly when some delete of the pass destroys it. */
  lemma {:induction false} LostExactly(d: Desired, s: State, db: Name, p: seq<Action>)
    requires FromPass(d, s, p) && db !in d && db !in s.lost
    ensures db in ApplyAll(s, p).lost <==> exists i :: 0 <= i < |p| && Destroys(s, db, p, i)
  {
    hide After, Decide, Place, IsPrimary, InSync;
    if p != [] {
      var n := |p| - 1;
      var front := p[..n];
      assert p == front + [p[n]];
      LostExactly(d, s, db, front);
      OneMoreLands(d, s, db, front, p[n]);
      forall i | 0 <= i < n ensures Destroys(s, db, p, i) <==> Destroys(s, db, front, i) {
        assert p[..i] == front[..i];
      }
      if exists i :: 0 <= i < |p| && Destroys(s, db, p, i) {
        var i :| 0 <= i < |p| && Destroys(s, db, p, i);
        if i < n { assert Destroys(s, db, front, i); }
      }
      if exists i :: 0 <= i < n && Destroys(s, db, front, i) {
        var i :| 0 <= i < n && Destroys(s, db, front, i);
        assert Destroys(s, db, p, i);
      }
    }
  }

  // ---------------------------------------------------------------------------------------------
  // When the order decides

  lemma {:induction false} FirstPlace(p: seq<Action>, a: Action) returns (i: nat)
    requires a in p
    ensures i < |p| && p[i] == a && a !in p[..i]
  {
    if p[0] == a {
      i := 0;
    } else {
      i := FirstPlace(p[1..], a);
      i := i + 1;
      assert p[..i] == [p[0]] + p[1..][..i - 1];
    }
  }

  lemma WholeIsFrom(d: Desired, s: State, db: Name, p: seq<Action>)
    requires WholePass(d, s, p) && db !in d
    ensures FromPass(d, s, p)
    ensures forall key: Key :: key.0 == db && key in s.replicas ==> Delete(db, key.1) in p
  {
    forall a | a in p ensures Decide(d, s, Place(a)) == Some(a) { ReconcileExact(d, s, a); }
    forall key: Key | key.0 == db && key in s.replicas ensures Delete(db, key.1) in p {
      ReconcileExact(d, s, Delete(db, key.1));
    }
  }

  /** Unless a database wanted nowhere has both a primary and a standby in sync, the order cannot matter: its
      data is destroyed if it has a primary, and not if it has none. */
  lemma TeardownCertain(d: Desired, s: State, db: Name, p: seq<Action>)
    requires WholePass(d, s, p) && db !in d && db !in s.lost
    requires !(HasPrimary(s, db) && HasStandbyInSync(s, db))
    ensures db in ApplyAll(s, p).lost <==> HasPrimary(s, db)
  {
    WholeIsFrom(d, s, db, p);
    LostExactly(d, s, db, p);
    if HasPrimary(s, db) {
      var key :| key in s.replicas && key.0 == db && IsPrimary(s, key);
      var i := FirstPlace(p, Delete(db, key.1));
      assert Destroys(s, db, p, i);
    }
  }

  /** The actions of `q` that `pick` does, or does not, pick, in the order they stand. */
  function Picked(q: seq<Action>, pick: Action -> bool, yes: bool): (r: seq<Action>)
    ensures forall a :: a in r <==> a in q && pick(a) == yes
  {
    if q == [] then [] else (if pick(q[0]) == yes then [q[0]] else []) + Picked(q[1..], pick, yes)
  }

  lemma {:induction false} PickedAll(q: seq<Action>, pick: Action -> bool)
    ensures multiset(Picked(q, pick, true)) + multiset(Picked(q, pick, false)) == multiset(q)
  {
    if q != [] {
      PickedAll(q[1..], pick);
      assert q == [q[0]] + q[1..];
    }
  }

  /** The pass with what `pick` picks brought to the front, or sent to the back. */
  function Sorting(d: Desired, s: State, pick: Action -> bool, front: bool): seq<Action> {
    Picked(Reconcile(d, s), pick, front) + Picked(Reconcile(d, s), pick, !front)
  }

  /** The pass in some order, each of its actions once. */
  ghost predicate InSomeOrder(d: Desired, s: State, p: seq<Action>) {
    multiset(p) == multiset(Reconcile(d, s))
  }

  lemma SortingIsOrder(d: Desired, s: State, pick: Action -> bool, front: bool)
    ensures InSomeOrder(d, s, Sorting(d, s, pick, front))
  {
    PickedAll(Reconcile(d, s), pick);
  }

  lemma OrderIsWhole(d: Desired, s: State, p: seq<Action>)
    requires InSomeOrder(d, s, p)
    ensures WholePass(d, s, p)
  {
    forall a ensures a in p <==> a in Reconcile(d, s) {
      assert a in p <==> a in multiset(p);
      assert a in Reconcile(d, s) <==> a in multiset(Reconcile(d, s));
    }
  }

  /** Primaries first, and nothing is destroyed; primaries last, and the data is. */
  lemma BothOrders(d: Desired, s: State, db: Name) returns (kept: seq<Action>, destroyed: seq<Action>)
    requires db !in d && db !in s.lost && HasPrimary(s, db) && HasStandbyInSync(s, db)
    ensures InSomeOrder(d, s, kept) && db !in ApplyAll(s, kept).lost
    ensures InSomeOrder(d, s, destroyed) && db in ApplyAll(s, destroyed).lost
  {
    var primary := (a: Action) => a.Delete? && a.database == db && IsPrimary(s, Place(a));
    kept, destroyed := Sorting(d, s, primary, true), Sorting(d, s, primary, false);
    SortingIsOrder(d, s, primary, true);
    SortingIsOrder(d, s, primary, false);
    OrderIsWhole(d, s, kept);
    OrderIsWhole(d, s, destroyed);
    WholeIsFrom(d, s, db, kept);
    WholeIsFrom(d, s, db, destroyed);
    hide Reconcile, ApplyAll, Decide, InSomeOrder, WholePass, FromPass;
    PrimariesFirst(d, s, db, Picked(Reconcile(d, s), primary, true), Picked(Reconcile(d, s), primary, false));
    PrimariesLast(d, s, db, Picked(Reconcile(d, s), primary, false), Picked(Reconcile(d, s), primary, true));
  }

  /** Whether an action takes away what the pass found to be a primary of the database. */
  predicate TakesPrimary(s: State, db: Name, a: Action) {
    a.Delete? && a.database == db && IsPrimary(s, Place(a))
  }

  lemma PrimariesFirst(d: Desired, s: State, db: Name, x: seq<Action>, y: seq<Action>)
    requires FromPass(d, s, x + y) && db !in d && db !in s.lost && HasStandbyInSync(s, db)
    requires (forall a :: a in x ==> TakesPrimary(s, db, a)) && forall a :: a in y ==> !TakesPrimary(s, db, a)
    ensures db !in ApplyAll(s, x + y).lost
  {
    hide ApplyAll, FromPass;
    LostExactly(d, s, db, x + y);
    forall i | 0 <= i < |x + y| ensures !Destroys(s, db, x + y, i) {
      NotDestroyed(s, db, x, y, i);
    }
  }

  lemma NotDestroyed(s: State, db: Name, x: seq<Action>, y: seq<Action>, i: nat)
    requires i < |x + y| && HasStandbyInSync(s, db)
    requires (forall a :: a in x ==> TakesPrimary(s, db, a)) && forall a :: a in y ==> !TakesPrimary(s, db, a)
    ensures !Destroys(s, db, x + y, i)
  {
    if i < |x| {
      var key :| key in s.replicas && key.0 == db && InSync(s, key);
      assert (x + y)[..i] == x[..i] && !TakesPrimary(s, db, Delete(db, key.1));
    } else {
      assert (x + y)[i] == y[i - |x|] && y[i - |x|] in y;
    }
  }

  lemma PrimariesLast(d: Desired, s: State, db: Name, x: seq<Action>, y: seq<Action>)
    requires FromPass(d, s, x + y) && db !in d && db !in s.lost && HasPrimary(s, db)
    requires (forall a :: a in x ==> !TakesPrimary(s, db, a)) && forall a :: a in y ==> TakesPrimary(s, db, a)
    requires forall key: Key :: key.0 == db && key in s.replicas ==> Delete(db, key.1) in x + y
    ensures db in ApplyAll(s, x + y).lost
  {
    hide ApplyAll, FromPass;
    LostExactly(d, s, db, x + y);
    var key :| key in s.replicas && key.0 == db && IsPrimary(s, key);
    var i := LastDestroys(s, db, x, y, key);
  }

  lemma LastDestroys(s: State, db: Name, x: seq<Action>, y: seq<Action>, key: Key) returns (i: nat)
    requires IsPrimary(s, key) && key.0 == db
    requires (forall a :: a in x ==> !TakesPrimary(s, db, a)) && forall a :: a in y ==> TakesPrimary(s, db, a)
    requires forall key: Key :: key.0 == db && key in s.replicas ==> Delete(db, key.1) in x + y
    ensures i < |x + y| && Destroys(s, db, x + y, i)
  {
    var a := Delete(db, key.1);
    assert TakesPrimary(s, db, a);
    var k := FirstPlace(y, a);
    i := |x| + k;
    assert (x + y)[..i] == x + y[..k] && (x + y)[i] == a;
    forall other: Key | other.0 == db && InSync(s, other) ensures Delete(db, other.1) in x {
      assert !TakesPrimary(s, db, Delete(db, other.1));
    }
  }

  /** The order of a pass decides what becomes of a database wanted nowhere exactly when it has both a primary
      and a standby in sync. */
  lemma TeardownOrderMatters(d: Desired, s: State, db: Name)
    requires db !in d && db !in s.lost
    ensures (exists p, q :: InSomeOrder(d, s, p) && InSomeOrder(d, s, q)
                            && db in ApplyAll(s, p).lost && db !in ApplyAll(s, q).lost)
            <==> HasPrimary(s, db) && HasStandbyInSync(s, db)
  {
    if HasPrimary(s, db) && HasStandbyInSync(s, db) {
      var kept, destroyed := BothOrders(d, s, db);
      assert InSomeOrder(d, s, destroyed) && InSomeOrder(d, s, kept);
    } else {
      forall p | InSomeOrder(d, s, p) ensures db in ApplyAll(s, p).lost <==> HasPrimary(s, db) {
        OrderIsWhole(d, s, p);
        TeardownCertain(d, s, db, p);
      }
    }
  }
}
