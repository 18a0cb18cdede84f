/** The order names are kept in, and the order a map keyed by them is walked in.

    Every map of the engine is an ordered one, so walking it visits its keys in ascending order
    however they were put in. `Sorted` is that walk. */
module Order {

  /** Ascending order of text, character by character, a proper prefix first. */
  predicate Before(a: string, b: string) {
    b != [] && (a == [] || a[0] < b[0] || (a[0] == b[0] && Before(a[1..], b[1..])))
  }

  lemma BeforeIrreflexive(a: string)
    ensures !Before(a, a)
  {}

  lemma BeforeTransitive(a: string, b: string, c: string)
    requires Before(a, b) && Before(b, c)
    ensures Before(a, c)
  {}

  lemma BeforeTotal(a: string, b: string)
    ensures a == b || Before(a, b) || Before(b, a)
  {
    if a == [] || b == [] || a[0] != b[0] {
    } else {
      BeforeTotal(a[1..], b[1..]);
      assert a == [a[0]] + a[1..] && b == [b[0]] + b[1..];
    }
  }

  predicate IsLeast(x: string, s: set<string>) {
    x in s && forall y :: y in s && y != x ==> Before(x, y)
  }

  lemma LeastExists(s: set<string>)
    requires s != {}
    ensures exists x :: IsLeast(x, s)
  {
    var y :| y in s;
    if s == {y} {
      assert IsLeast(y, s);
    } else {
      LeastExists(s - {y});
      var x :| IsLeast(x, s - {y});
      BeforeTotal(x, y);
      if Before(x, y) {
        assert IsLeast(x, s);
      } else {
        forall z | z in s && z != y ensures Before(y, z) {
          if z != x { BeforeTransitive(y, x, z); }
        }
        assert IsLeast(y, s);
      }
    }
  }

  /** The first key of a set, which is the one an ordered walk meets first. */
  function Least(s: set<string>): (x: string)
    requires s != {}
    ensures IsLeast(x, s)
  {
    LeastExists(s);
    assert forall x, y | IsLeast(x, s) && IsLeast(y, s) :: x == y by {
      forall x, y | IsLeast(x, s) && IsLeast(y, s) ensures x == y {
        if x != y { BeforeTransitive(x, y, x); BeforeIrreflexive(x); }
      }
    }
    var x :| x in s && IsLeast(x, s);
    x
  }

  ghost predicate Ascending(q: seq<string>) {
    forall i, j :: 0 <= i < j < |q| ==> Before(q[i], q[j])
  }

  /** The keys of `s` in the order an ordered map walks them: ascending, each once. */
  function Sorted(s: set<string>): (q: seq<string>)
    ensures Ascending(q)
    ensures |q| == |s|
    ensures forall x :: x in q <==> x in s
    decreases |s|
  {
    if s == {} then [] else
      var x := Least(s);
      var rest := Sorted(s - {x});
      assert forall j :: 0 <= j < |rest| ==> rest[j] in rest && Before(x, rest[j]);
      [x] + rest
  }

  /** An ascending list holds each of its members at one place. */
  lemma AscendingDistinct(q: seq<string>, i: nat, j: nat)
    requires Ascending(q) && i < |q| && j < |q| && q[i] == q[j]
    ensures i == j
  {
    BeforeIrreflexive(q[i]);
  }

  /** One more element taken off the front of a list. */
  lemma TakeMore<T>(q: seq<T>, i: nat)
    requires i < |q|
    ensures q[..i + 1] == q[..i] + [q[i]] && q[i] in q
    ensures forall x :: x in q[..i + 1] <==> x in q[..i] || x == q[i]
  {}

  lemma TakeAll<T>(q: seq<T>)
    ensures q[..|q|] == q && q[..0] == []
  {}
}
