/** Where states are kept: a map from names to shells, closed under children. */
module Store {
  import opened Order
  import opened Tree
  import opened Wrappers

  /** The store is exactly what the nodes of `held` come to, each under the name it answers to. */
  ghost predicate Mirrors(naming: Naming, nodes: map<Digest, Shell>, held: set<Node>) {
    && (forall n :: n in held ==> naming(n) in nodes && nodes[naming(n)] == Stored(naming, n))
    && (forall d :: d in nodes ==> exists n :: n in held && naming(n) == d)
  }

  /** What a store holds depends on what was put in it and on nothing else: not on the order, and not
      on whether a part already there was walked again. */
  lemma MirrorsUnique(naming: Naming, a: map<Digest, Shell>, b: map<Digest, Shell>, held: set<Node>)
    requires Mirrors(naming, a, held) && Mirrors(naming, b, held)
    ensures a == b
  {
    forall d | d in a || d in b ensures d in a && d in b && a[d] == b[d] {
      var n :| n in held && naming(n) == d;
    }
  }

  /** Everything under the children called `names`. */
  ghost function Below(node: Node, names: seq<Name>): set<Node>
    requires node.Branch?
  {
    set name, n | name in names && name in node.children && n in Subtrees(node.children[name]) :: n
  }

  lemma BelowMore(node: Node, names: seq<Name>, i: nat)
    requires node.Branch? && i < |names| && names[i] in node.children
    ensures Below(node, names[..i + 1]) == Below(node, names[..i]) + Subtrees(node.children[names[i]])
    ensures Below(node, names[..i + 1]) <= Subtrees(node)
  {
    TakeMore(names, i);
  }

  lemma BelowAll(node: Node, names: seq<Name>)
    requires node.Branch? && forall name :: name in names <==> name in node.children
    ensures Below(node, names) + {node} == Subtrees(node)
    ensures forall name :: name in node.children ==> node.children[name] in Below(node, names)
  {
    forall name | name in node.children ensures node.children[name] in Below(node, names) {
      SubtreesClosed(node.children[name]);
    }
  }

  lemma AddMirrors(naming: Naming, nodes: map<Digest, Shell>, held: set<Node>, node: Node)
    requires Mirrors(naming, nodes, held)
    requires forall n :: n in held && naming(n) == naming(node) ==> Stored(naming, n) == Stored(naming, node)
    ensures Mirrors(naming, nodes[naming(node) := Stored(naming, node)], held + {node})
  {
    var d := naming(node);
    var more := nodes[d := Stored(naming, node)];
    forall n | n in held + {node} ensures naming(n) in more && more[naming(n)] == Stored(naming, n) {
      if n != node && naming(n) != d { assert n in held; }
    }
    forall e | e in more ensures exists n :: n in held + {node} && naming(n) == e {
      if e != d {
        var n :| n in held && naming(n) == e;
        assert n in held + {node};
      } else {
        assert node in held + {node};
      }
    }
  }

  lemma NamesComplete(naming: Naming, node: Node, stored: map<Name, Digest>)
    requires node.Branch? && stored.Keys == node.children.Keys
    requires forall name :: name in stored ==> stored[name] == naming(node.children[name])
    ensures BranchShell(stored) == Stored(naming, node)
  {
    assert stored == Stored(naming, node).names;
  }

  lemma TellsSubset(naming: Naming, some: set<Node>, all: set<Node>)
    requires some <= all && Tells(naming, all)
    ensures Tells(naming, some)
  {}

  /** What a store held it still holds, under the same names, once more has been put in. */
  lemma MirrorsGrow(naming: Naming, a: map<Digest, Shell>, some: set<Node>, b: map<Digest, Shell>, all: set<Node>)
    requires Mirrors(naming, a, some) && Mirrors(naming, b, all) && some <= all
    ensures forall d :: d in a ==> d in b && b[d] == a[d]
  {
    forall d | d in a ensures d in b && b[d] == a[d] {
      var n :| n in some && naming(n) == d;
    }
  }

  lemma UnionWith<T>(a: set<T>, b: set<T>, x: T, c: set<T>)
    requires b + {x} == c
    ensures a + b + {x} == a + c
  {}

  lemma SameParts<T>(a: map<Name, T>, b: map<Name, T>, names: seq<Name>)
    requires forall name :: name in names <==> name in b
    requires forall name :: name in a <==> name in names[..|names|]
    requires forall name :: name in a ==> name in b && a[name] == b[name]
    ensures a == b
  {
    TakeAll(names);
  }

  lemma ClosedUnion(a: set<Node>, b: set<Node>)
    requires Closed(a) && Closed(b)
    ensures Closed(a + b)
  {}

  class StateStore {
    const naming: Naming
    var nodes: map<Digest, Shell>
    /** Every state the store ever saw, and everything under each. */
    ghost var held: set<Node>

    ghost predicate Valid()
      reads this
    {
      Closed(held) && Tells(naming, held) && Mirrors(naming, nodes, held)
    }

    constructor (naming: Naming)
      ensures Valid() && this.naming == naming && held == {} && nodes == map[]
    {
      this.naming, nodes, held := naming, map[], {};
    }

    /** A name the store holds is the name of one state it saw, and of no other. */
    ghost function Named(d: Digest): (n: Node)
      reads this
      requires Valid() && d in nodes
      ensures n in held && naming(n) == d
      ensures forall m :: m in held && naming(m) == d ==> m == n
    {
      var n :| n in held && naming(n) == d;
      n
    }

    /** Afterwards `node` and all its subtrees are held under their names, and every earlier entry is unchanged. */
    method Insert(node: Node) returns (d: Digest)
      requires Valid() && Tells(naming, held + Subtrees(node))
      modifies this
      ensures Valid() && held == old(held) + Subtrees(node)
      ensures d == naming(node) && d in nodes
      ensures forall e :: e in old(nodes) ==> e in nodes && nodes[e] == old(nodes)[e]
      decreases node, 1
    {
      SubtreesClosed(node);
      d := naming(node);
      if d in nodes {
        ClosedUnion(held, Subtrees(node));
        assert Named(d) in held + Subtrees(node);
        HeldBringsAll(held, node);
        return;
      }
      var stored: Shell;
      match node {
        case Leaf(bytes) => stored := LeafShell(bytes);
        case Branch(children) =>
          var names := InsertChildren(node);
          stored := BranchShell(names);
      }
      assert held + {node} == old(held) + Subtrees(node);
      forall n | n in held && naming(n) == d ensures Stored(naming, n) == Stored(naming, node) {
        assert n in old(held) + Subtrees(node);
      }
      AddMirrors(naming, nodes, held, node);
      nodes := nodes[d := stored];
      held := held + {node};
      MirrorsGrow(naming, old(nodes), old(held), nodes, held);
    }

    /** Puts every child of a branch in the store, and returns what each is called. */
    method InsertChildren(node: Node) returns (stored: map<Name, Digest>)
      requires node.Branch?
      requires Valid() && Tells(naming, held + Subtrees(node))
      modifies this
      ensures Valid() && held + {node} == old(held) + Subtrees(node)
      ensures forall name :: name in node.children ==> node.children[name] in held
      ensures BranchShell(stored) == Stored(naming, node)
      decreases node, 0
    {
      hide Closed, Mirrors, Tells, Ascending, Before;
      var names := Sorted(node.children.Keys);
      stored := map[];
      ghost var all := held + Subtrees(node);
      var i := 0;
      while i < |names|
        invariant 0 <= i <= |names| && Valid()
        invariant held == old(held) + Below(node, names[..i])
        invariant forall name :: name in stored <==> name in names[..i]
        invariant forall name :: name in stored ==>
                    name in node.children && stored[name] == naming(node.children[name])
      {
        var name := names[i];
        TakeMore(names, i);
        BelowMore(node, names, i);
        TellsSubset(naming, held + Subtrees(node.children[name]), all);
        var child := Insert(node.children[name]);
        stored := stored[name := child];
        i := i + 1;
      }
      TakeAll(names);
      BelowAll(node, names);
      NamesComplete(naming, node, stored);
      UnionWith(old(held), Below(node, names), node, Subtrees(node));
    }

    /** Returns the state `d` names, rebuilt from its parts: exactly the state that was put in. */
    method Get(d: Digest) returns (r: Option<Node>)
      requires Valid()
      ensures r == if d in nodes then Some(Named(d)) else None
      decreases if d in nodes then Named(d) else Leaf([]), d in nodes
    {
      if d !in nodes {
        return None;
      }
      ghost var node := Named(d);
      match nodes[d] {
        case LeafShell(bytes) =>
          return Some(Leaf(bytes));
        case BranchShell(names) =>
          var parts := GetChildren(node, names);
          if parts.None? {
            assert false;
            return None;
          }
          return Some(Branch(parts.value));
      }
    }

    /** Rebuilds every child of a branch. None can be missing, whatever the branch. */
    method GetChildren(ghost node: Node, names: map<Name, Digest>) returns (r: Option<map<Name, Node>>)
      requires Valid() && node in held && node.Branch? && Stored(naming, node) == BranchShell(names)
      ensures r == Some(node.children)
      decreases node, false
    {
      hide Closed, Mirrors, Tells, Ascending, Before;
      var order := Sorted(names.Keys);
      var rebuilt: map<Name, Node> := map[];
      var i := 0;
      while i < |order|
        invariant 0 <= i <= |order|
        invariant forall name :: name in rebuilt <==> name in order[..i]
        invariant forall name :: name in rebuilt ==> name in node.children && rebuilt[name] == node.children[name]
      {
        var name := order[i];
        TakeMore(order, i);
        ChildNamed(node, name);
        var part := Get(names[name]);
        if part.None? {
          assert false;
          return None;
        }
        rebuilt := rebuilt[name := part.value];
        i := i + 1;
      }
      assert names.Keys == node.children.Keys;
      SameParts(rebuilt, node.children, order);
      return Some(rebuilt);
    }

    lemma ChildNamed(node: Node, name: Name)
      requires Valid() && node in held && node.Branch? && name in node.children
      ensures naming(node.children[name]) in nodes
      ensures Named(naming(node.children[name])) == node.children[name]
    {
      assert node.children[name] in held;
    }

    /** What the store holds under `d`, one node deep: a branch's children are all there to descend to. */
    method Held(d: Digest) returns (r: Option<Shell>)
      requires Valid()
      ensures r == if d in nodes then Some(Stored(naming, Named(d))) else None
      ensures r.Some? && r.value.BranchShell? ==>
                forall name :: name in r.value.names ==> r.value.names[name] in nodes
    {
      if d !in nodes {
        return None;
      }
      ghost var node := Named(d);
      if node.Branch? {
        forall name | name in node.children ensures naming(node.children[name]) in nodes {
          assert node.children[name] in held;
        }
      }
      return Some(nodes[d]);
    }

    /** How many nodes the store holds: one for each distinct state or part of one it ever saw. */
    method Len() returns (n: nat)
      requires Valid()
      ensures n == |held|
    {
      ghost var names := set node | node in held :: naming(node);
      assert names == nodes.Keys;
      ImageSize(naming, held, held, names);
      return |nodes|;
    }
  }

  lemma {:induction false} ImageSize(naming: Naming, all: set<Node>, some: set<Node>, names: set<Digest>)
    requires Closed(all) && Tells(naming, all) && some <= all
    requires names == set node | node in some :: naming(node)
    ensures |names| == |some|
    decreases |some|
  {
    if some != {} {
      var n :| n in some;
      var rest := set node | node in some - {n} :: naming(node);
      forall m | m in some - {n} ensures naming(m) != naming(n) {
        assert m in all;
      }
      assert names == rest + {naming(n)};
      ImageSize(naming, all, some - {n}, rest);
    }
  }

  /** A closed set holding a node holds everything under it. */
  lemma {:induction false} HeldBringsAll(held: set<Node>, node: Node)
    requires Closed(held) && node in held
    ensures Subtrees(node) <= held
    decreases node
  {
    if node.Branch? {
      forall name | name in node.children ensures Subtrees(node.children[name]) <= held {
        HeldBringsAll(held, node.children[name]);
      }
    }
  }
}
