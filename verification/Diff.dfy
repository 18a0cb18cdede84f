/** What differs between two states of a store, and what stands in one: the walk that stops wherever two
    names agree, against the walk that descends everywhere. */
module Diff {
  import opened Order
  import opened Bytes
  import opened Tree
  import opened Store
  import opened Wrappers

  type Path = seq<Name>

  /** One side of a change: a value's bytes, or the name a whole subtree answers to. */
  datatype Contents = LeafContents(bytes: seq<byte>) | BranchContents(named: Digest)

  datatype Change =
    | Added(path: Path, now: Contents)
    | Removed(path: Path, was: Contents)
    | Changed(path: Path, was: Contents, now: Contents)

  function ContentsOf(naming: Naming, node: Node): Contents {
    match node
    case Leaf(bytes) => LeafContents(bytes)
    case Branch(_) => BranchContents(naming(node))
  }

  // ---------------------------------------------------------------------------------------------
  // The walk that descends everywhere

  /** Every difference between two trees, found by reading both of them whole. No name is compared. */
  function Walk(naming: Naming, path: Path, a: Node, b: Node): seq<Change>
    decreases a, 2, 0
  {
    match (a, b)
    case (Branch(was), Branch(now)) => WalkParts(naming, path, a, b, Sorted(was.Keys + now.Keys))
    case (Leaf(was), Leaf(now)) => if was == now then [] else [Changed(path, LeafContents(was), LeafContents(now))]
    case _ => [Changed(path, ContentsOf(naming, a), ContentsOf(naming, b))]
  }

  ghost predicate Parts(a: Node, b: Node, names: seq<Name>) {
    a.Branch? && b.Branch? && forall name :: name in names ==> name in a.children || name in b.children
  }

  function WalkParts(naming: Naming, path: Path, a: Node, b: Node, names: seq<Name>): seq<Change>
    requires Parts(a, b, names)
    decreases a, 1, |names|
  {
    if names == [] then []
    else
      var n := |names| - 1;
      WalkParts(naming, path, a, b, names[..n]) + WalkPart(naming, path, a, b, names[n])
  }

  /** What one part contributes. */
  function WalkPart(naming: Naming, path: Path, a: Node, b: Node, name: Name): seq<Change>
    requires a.Branch? && b.Branch? && (name in a.children || name in b.children)
    decreases a, 0, 0
  {
    if name !in b.children then [Removed(path + [name], ContentsOf(naming, a.children[name]))]
    else if name !in a.children then [Added(path + [name], ContentsOf(naming, b.children[name]))]
    else Walk(naming, path + [name], a.children[name], b.children[name])
  }

  lemma WalkPartsMore(naming: Naming, path: Path, a: Node, b: Node, names: seq<Name>, i: nat)
    requires Parts(a, b, names) && i < |names|
    ensures Parts(a, b, names[..i]) && Parts(a, b, names[..i + 1])
    ensures names[i] in a.children || names[i] in b.children
    ensures WalkParts(naming, path, a, b, names[..i + 1])
            == WalkParts(naming, path, a, b, names[..i]) + WalkPart(naming, path, a, b, names[i])
  {
    TakeMore(names, i);
    assert names[..i + 1][..i] == names[..i];
  }

  /** The walk reports nothing exactly when the two states are one state. */
  lemma {:induction false} EmptyIffEqual(naming: Naming, path: Path, a: Node, b: Node)
    ensures Walk(naming, path, a, b) == [] <==> a == b
    decreases a, 2, 0
  {
    if a.Branch? && b.Branch? {
      var names := Sorted(a.children.Keys + b.children.Keys);
      EmptyPartsIff(naming, path, a, b, names);
      if Walk(naming, path, a, b) == [] {
        forall name | name in a.children || name in b.children
          ensures name in a.children && name in b.children && a.children[name] == b.children[name]
        {
          assert name in names;
        }
        assert a.children == b.children;
      }
    }
  }

  lemma {:induction false} EmptyPartsIff(naming: Naming, path: Path, a: Node, b: Node, names: seq<Name>)
    requires Parts(a, b, names)
    ensures WalkParts(naming, path, a, b, names) == []
            <==> forall name :: name in names ==>
                   name in a.children && name in b.children && a.children[name] == b.children[name]
    decreases a, 1, |names|
  {
    if names != [] {
      var n := |names| - 1;
      TakeMore(names, n);
      TakeAll(names);
      WalkPartsMore(naming, path, a, b, names, n);
      EmptyPartsIff(naming, path, a, b, names[..n]);
      if names[n] in a.children && names[n] in b.children {
        EmptyIffEqual(naming, path + [names[n]], a.children[names[n]], b.children[names[n]]);
      }
    }
  }

  // ---------------------------------------------------------------------------------------------
  // The order of the report

  /** `p` goes before `q`, and neither leads to the other: they part at some name. */
  ghost predicate Parting(p: Path, q: Path) {
    exists k :: 0 <= k < |p| && k < |q| && p[..k] == q[..k] && Before(p[k], q[k])
  }

  /** Every change hangs under `path`, and under one of `names`. */
  ghost predicate Under(changes: seq<Change>, path: Path, names: seq<Name>) {
    forall c :: c in changes ==>
      |c.path| > |path| && c.path[..|path|] == path && c.path[|path|] in names
  }

  ghost predicate At(changes: seq<Change>, path: Path) {
    forall c :: c in changes ==> |c.path| >= |path| && c.path[..|path|] == path
  }

  ghost predicate PathsPart(changes: seq<Change>) {
    forall i, j :: 0 <= i < j < |changes| ==> Parting(changes[i].path, changes[j].path)
  }

  lemma PathsPartJoin(p: seq<Change>, q: seq<Change>)
    requires PathsPart(p) && PathsPart(q)
    requires forall c, d :: c in p && d in q ==> Parting(c.path, d.path)
    ensures PathsPart(p + q)
  {
    forall i, j | 0 <= i < j < |p + q| ensures Parting((p + q)[i].path, (p + q)[j].path) {
      if i < |p| <= j { assert p[i] in p && q[j - |p|] in q; }
    }
  }

  /** The report comes in path order, each path once, and no path of it leads to another. */
  lemma {:induction false} WalkInOrder(naming: Naming, path: Path, a: Node, b: Node)
    ensures At(Walk(naming, path, a, b), path)
    ensures PathsPart(Walk(naming, path, a, b))
    decreases a, 2, 0
  {
    if a.Branch? && b.Branch? {
      WalkPartsInOrder(naming, path, a, b, Sorted(a.children.Keys + b.children.Keys));
    }
  }

  lemma AtIsUnder(changes: seq<Change>, path: Path, name: Name)
    requires At(changes, path + [name])
    ensures Under(changes, path, [name])
  {
    forall c | c in changes
      ensures |c.path| > |path| && c.path[..|path|] == path && c.path[|path|] in [name]
    {
      assert c.path[..|path| + 1] == path + [name];
      assert c.path[..|path|] == c.path[..|path| + 1][..|path|] == path;
      assert c.path[|path|] == c.path[..|path| + 1][|path|];
    }
  }

  lemma {:induction false} WalkPartsInOrder(naming: Naming, path: Path, a: Node, b: Node, names: seq<Name>)
    requires Parts(a, b, names) && Ascending(names)
    ensures Under(WalkParts(naming, path, a, b, names), path, names)
    ensures PathsPart(WalkParts(naming, path, a, b, names))
    decreases a, 1, |names|
  {
    if names != [] {
      var n := |names| - 1;
      var name := names[n];
      TakeMore(names, n);
      TakeAll(names);
      WalkPartsMore(naming, path, a, b, names, n);
      var rest := WalkParts(naming, path, a, b, names[..n]);
      var last := WalkPart(naming, path, a, b, name);
      WalkPartsInOrder(naming, path, a, b, names[..n]);
      if name in a.children && name in b.children {
        WalkInOrder(naming, path + [name], a.children[name], b.children[name]);
      }
      AtIsUnder(last, path, name);
      forall c, d | c in rest && d in last ensures Parting(c.path, d.path) {
        var k := |path|;
        assert c.path[..k] == d.path[..k] && c.path[k] in names[..n];
        assert Before(c.path[k], d.path[k]);
      }
      PathsPartJoin(rest, last);
    }
  }

  // ---------------------------------------------------------------------------------------------
  // What a change says, and what carrying all of them out comes to

  /** What stands at `path` of a tree, reading from its `k`th name on. */
  function Standing(node: Node, path: Path, k: nat): Option<Node>
    requires k <= |path|
    decreases |path| - k
  {
    if k == |path| then Some(node)
    else if node.Branch? && path[k] in node.children then Standing(node.children[path[k]], path, k + 1)
    else None
  }

  function Shown(naming: Naming, node: Option<Node>): Option<Contents> {
    match node
    case None => None
    case Some(n) => Some(ContentsOf(naming, n))
  }

  function Was(c: Change): Option<Contents> {
    if c.Added? then None else Some(c.was)
  }

  function Now(c: Change): Option<Contents> {
    if c.Removed? then None else Some(c.now)
  }

  /** Each change says what stands at its path on either side: there, and no longer or not yet there. */
  lemma {:induction false} ChangesTrue(naming: Naming, path: Path, a: Node, b: Node, c: Change)
    requires c in Walk(naming, path, a, b)
    ensures |c.path| >= |path|
    ensures Was(c) == Shown(naming, Standing(a, c.path, |path|))
    ensures Now(c) == Shown(naming, Standing(b, c.path, |path|))
    decreases a, 2, 0
  {
    if a.Branch? && b.Branch? {
      PartsTrue(naming, path, a, b, Sorted(a.children.Keys + b.children.Keys), c);
    }
  }

  lemma {:induction false} PartsTrue(naming: Naming, path: Path, a: Node, b: Node, names: seq<Name>, c: Change)
    requires Parts(a, b, names) && c in WalkParts(naming, path, a, b, names)
    ensures |c.path| >= |path|
    ensures Was(c) == Shown(naming, Standing(a, c.path, |path|))
    ensures Now(c) == Shown(naming, Standing(b, c.path, |path|))
    decreases a, 1, |names|
  {
    assert names != [];
    hide Walk, WalkParts, Ascending;
    var n := |names| - 1;
    var name := names[n];
    TakeMore(names, n);
    TakeAll(names);
    WalkPartsMore(naming, path, a, b, names, n);
    if c in WalkParts(naming, path, a, b, names[..n]) {
      PartsTrue(naming, path, a, b, names[..n], c);
    } else if name in a.children && name in b.children {
      ChangesTrue(naming, path + [name], a.children[name], b.children[name], c);
      WalkInOrder(naming, path + [name], a.children[name], b.children[name]);
      AtIsUnder(Walk(naming, path + [name], a.children[name], b.children[name]), path, name);
    }
  }

  /** No line is coarser than it need be: one that says something changed never stands over two branches, and never
      over two leaves alike; and one that says something came or went says so of the highest part that did. */
  lemma {:induction false} ChangesFinest(naming: Naming, path: Path, a: Node, b: Node, c: Change)
    requires c in Walk(naming, path, a, b)
    ensures |c.path| >= |path|
    ensures c.Changed? ==>
              var x, y := Standing(a, c.path, |path|), Standing(b, c.path, |path|);
              x.Some? && y.Some? && x != y && !(x.value.Branch? && y.value.Branch?)
    ensures !c.Changed? ==>
              var x, y := Standing(a, c.path, |path|), Standing(b, c.path, |path|);
              && |c.path| > |path| && (c.Added? <==> x.None?) && (c.Removed? <==> y.None?)
              && var over := c.path[..|c.path| - 1];
                 && Standing(a, over, |path|).Some? && Standing(a, over, |path|).value.Branch?
                 && Standing(b, over, |path|).Some? && Standing(b, over, |path|).value.Branch?
    decreases a, 2, 0
  {
    if a.Branch? && b.Branch? {
      PartsFinest(naming, path, a, b, Sorted(a.children.Keys + b.children.Keys), c);
    }
  }

  lemma {:induction false} PartsFinest(naming: Naming, path: Path, a: Node, b: Node, names: seq<Name>, c: Change)
    requires Parts(a, b, names) && c in WalkParts(naming, path, a, b, names)
    ensures |c.path| >= |path|
    ensures c.Changed? ==>
              var x, y := Standing(a, c.path, |path|), Standing(b, c.path, |path|);
              x.Some? && y.Some? && x != y && !(x.value.Branch? && y.value.Branch?)
    ensures !c.Changed? ==>
              var x, y := Standing(a, c.path, |path|), Standing(b, c.path, |path|);
              && |c.path| > |path| && (c.Added? <==> x.None?) && (c.Removed? <==> y.None?)
              && var over := c.path[..|c.path| - 1];
                 && Standing(a, over, |path|).Some? && Standing(a, over, |path|).value.Branch?
                 && Standing(b, over, |path|).Some? && Standing(b, over, |path|).value.Branch?
    decreases a, 1, |names|
  {
    assert names != [];
    hide Walk, WalkParts, Ascending;
    var n := |names| - 1;
    var name := names[n];
    TakeMore(names, n);
    TakeAll(names);
    WalkPartsMore(naming, path, a, b, names, n);
    if c in WalkParts(naming, path, a, b, names[..n]) {
      PartsFinest(naming, path, a, b, names[..n], c);
    } else if name in a.children && name in b.children {
      var x, y := a.children[name], b.children[name];
      ChangesFinest(naming, path + [name], x, y, c);
      WalkInOrder(naming, path + [name], x, y);
      AtIsUnder(Walk(naming, path + [name], x, y), path, name);
      assert c.path[|path|] == name;
      if !c.Changed? {
        var over := c.path[..|c.path| - 1];
        assert over[|path|] == name;
      }
    } else {
      assert c.path == path + [name] && c.path[..|c.path| - 1] == path;
    }
  }

  /** What a line of a report stands for, to a reader who asks the store for whole subtrees. */
  type Reading = Contents -> Node

  ghost predicate Reads(naming: Naming, reading: Reading, nodes: set<Node>) {
    forall n :: n in nodes ==> reading(ContentsOf(naming, n)) == n
  }

  /** A store reads back every line written of a state it holds. */
  lemma StoreReads(naming: Naming, nodes: set<Node>) returns (reading: Reading)
    requires Tells(naming, nodes)
    ensures Reads(naming, reading, nodes)
  {
    reading := (c: Contents) => match c
      case LeafContents(bytes) => Leaf(bytes)
      case BranchContents(d) => if exists n :: n in nodes && n.Branch? && naming(n) == d
                                then PickNamed(naming, nodes, d) else Leaf([]);
    forall n | n in nodes ensures reading(ContentsOf(naming, n)) == n {
      if n.Branch? {
        assert PickNamed(naming, nodes, naming(n)) == n;
      }
    }
  }

  ghost function PickNamed(naming: Naming, nodes: set<Node>, d: Digest): (n: Node)
    requires exists n :: n in nodes && n.Branch? && naming(n) == d
    ensures n in nodes && naming(n) == d
  {
    var n :| n in nodes && n.Branch? && naming(n) == d;
    n
  }

  /** The tree with `value` put at `path`, read from its `k`th name on; nothing put there takes away
      what stood there. */
  function Put(node: Option<Node>, path: Path, k: nat, value: Option<Node>): Option<Node>
    requires k <= |path|
    decreases |path| - k
  {
    if k == |path| then value
    else if node.None? || node.value.Leaf? then node
    else
      var children := node.value.children;
      var child := if path[k] in children then Some(children[path[k]]) else None;
      match Put(child, path, k + 1, value)
      case None => Some(Branch(children - {path[k]}))
      case Some(put) => Some(Branch(children[path[k] := put]))
  }

  function Read(reading: Reading, c: Change): Option<Node> {
    if c.Removed? then None else Some(reading(c.now))
  }

  /** Every change carried out in turn. */
  function Patched(reading: Reading, node: Option<Node>, changes: seq<Change>, k: nat): Option<Node>
    requires forall c :: c in changes ==> k <= |c.path|
  {
    if changes == [] then node
    else
      var n := |changes| - 1;
      Put(Patched(reading, node, changes[..n], k), changes[n].path, k, Read(reading, changes[n]))
  }

  lemma {:induction false} PatchedJoin(reading: Reading, node: Option<Node>, p: seq<Change>, q: seq<Change>, k: nat)
    requires forall c :: c in p + q ==> k <= |c.path|
    ensures Patched(reading, node, p + q, k) == Patched(reading, Patched(reading, node, p, k), q, k)
  {
    if q == [] {
      assert p + q == p;
    } else {
      var n := |q| - 1;
      assert (p + q)[..|p + q| - 1] == p + q[..n];
      PatchedJoin(reading, node, p, q[..n], k);
    }
  }

  /** A branch with `part` standing under `name`, or nothing. */
  function With(children: map<Name, Node>, name: Name, part: Option<Node>): map<Name, Node> {
    match part
    case None => children - {name}
    case Some(node) => children[name := node]
  }

  function PartOf(children: map<Name, Node>, name: Name): Option<Node> {
    if name in children then Some(children[name]) else None
  }

  /** Changes that all hang under one name change that part and nothing beside it. */
  lemma {:induction false} PatchedUnder(reading: Reading, children: map<Name, Node>, changes: seq<Change>,
                                        k: nat, name: Name)
    requires forall c :: c in changes ==> k < |c.path| && c.path[k] == name
    ensures Patched(reading, Some(Branch(children)), changes, k)
            == Some(Branch(With(children, name, Patched(reading, PartOf(children, name), changes, k + 1))))
  {
    if changes == [] {
      assert With(children, name, PartOf(children, name)) == children;
    } else {
      var n := |changes| - 1;
      var c := changes[n];
      assert c in changes;
      PatchedUnder(reading, children, changes[..n], k, name);
      var part := Patched(reading, PartOf(children, name), changes[..n], k + 1);
      var before := With(children, name, part);
      assert PartOf(before, name) == part;
      var put := Put(part, c.path, k + 1, Read(reading, c));
      assert With(before, name, put) == With(children, name, put);
    }
  }

  /** Carried out on the earlier state, the report makes it the later one. */
  lemma {:induction false} PatchYields(naming: Naming, reading: Reading, path: Path, a: Node, b: Node)
    requires Reads(naming, reading, Subtrees(b))
    ensures forall c :: c in Walk(naming, path, a, b) ==> |path| <= |c.path|
    ensures Patched(reading, Some(a), Walk(naming, path, a, b), |path|) == Some(b)
    decreases a, 2, 0
  {
    WalkInOrder(naming, path, a, b);
    SubtreesClosed(b);
    if a.Branch? && b.Branch? {
      var names := Sorted(a.children.Keys + b.children.Keys);
      PatchPartsYields(naming, reading, path, a, b, names);
      MixedAll(a, b, names);
    } else {
      var changes := Walk(naming, path, a, b);
      assert a == b || changes[..0] == [];
    }
  }

  /** `a` with the parts called `names` as they stand in `b`. */
  function Mixed(a: Node, b: Node, names: seq<Name>): map<Name, Node>
    requires a.Branch? && b.Branch?
  {
    map name | name in a.children.Keys + b.children.Keys
               && (if name in names then name in b.children else name in a.children)
             :: if name in names then b.children[name] else a.children[name]
  }

  lemma {:induction false} PatchPartsYields(naming: Naming, reading: Reading, path: Path, a: Node, b: Node,
                                            names: seq<Name>)
    requires Parts(a, b, names) && Ascending(names) && Reads(naming, reading, Subtrees(b))
    ensures forall c :: c in WalkParts(naming, path, a, b, names) ==> |path| <= |c.path|
    ensures Patched(reading, Some(a), WalkParts(naming, path, a, b, names), |path|)
            == Some(Branch(Mixed(a, b, names)))
    decreases a, 1, |names|
  {
    WalkPartsInOrder(naming, path, a, b, names);
    if names == [] {
      assert Mixed(a, b, names) == a.children;
    } else {
      var n := |names| - 1;
      var name := names[n];
      TakeMore(names, n);
      TakeAll(names);
      WalkPartsMore(naming, path, a, b, names, n);
      var rest := WalkParts(naming, path, a, b, names[..n]);
      var last := WalkPart(naming, path, a, b, name);
      PatchPartsYields(naming, reading, path, a, b, names[..n]);
      PatchedJoin(reading, Some(a), rest, last, |path|);
      var mixed := Mixed(a, b, names[..n]);
      NotYet(a, b, names, n);
      PatchPart(naming, reading, path, a, b, name, mixed);
      MixedMore(a, b, names, n);
    }
  }

  lemma NotYet(a: Node, b: Node, names: seq<Name>, n: nat)
    requires Parts(a, b, names) && Ascending(names) && n < |names|
    ensures PartOf(Mixed(a, b, names[..n]), names[n]) == PartOf(a.children, names[n])
  {
    if names[n] in names[..n] {
      var i :| 0 <= i < n && names[..n][i] == names[n];
      AscendingDistinct(names, i, n);
    }
  }

  lemma MixedMore(a: Node, b: Node, names: seq<Name>, n: nat)
    requires Parts(a, b, names) && n < |names|
    ensures Mixed(a, b, names[..n + 1])
            == With(Mixed(a, b, names[..n]), names[n], PartOf(b.children, names[n]))
  {
    TakeMore(names, n);
  }

  lemma MixedAll(a: Node, b: Node, names: seq<Name>)
    requires a.Branch? && b.Branch? && forall name :: name in names <==> name in a.children || name in b.children
    ensures Mixed(a, b, names) == b.children
  {}

  lemma {:induction false} PatchPart(naming: Naming, reading: Reading, path: Path, a: Node, b: Node, name: Name,
                                     children: map<Name, Node>)
    requires a.Branch? && b.Branch? && (name in a.children || name in b.children)
    requires Reads(naming, reading, Subtrees(b)) && PartOf(children, name) == PartOf(a.children, name)
    ensures forall c :: c in WalkPart(naming, path, a, b, name) ==> |path| <= |c.path|
    ensures Patched(reading, Some(Branch(children)), WalkPart(naming, path, a, b, name), |path|)
            == Some(Branch(With(children, name, PartOf(b.children, name))))
    decreases a, 0, 0
  {
    hide Reads, Patched, Put, Read, With, Subtrees, PathsPart, At, Under;
    var changes := WalkPart(naming, path, a, b, name);
    if name in a.children && name in b.children {
      WalkInOrder(naming, path + [name], a.children[name], b.children[name]);
      PartReads(naming, reading, b, name);
      PatchYields(naming, reading, path + [name], a.children[name], b.children[name]);
      AtIsUnder(changes, path, name);
      assert |path + [name]| == |path| + 1;
      assert changes == Walk(naming, path + [name], a.children[name], b.children[name]);
      PartChanges(reading, a, b, children, changes, path, name);
    } else {
      OnePart(naming, reading, path, a, b, name);
      PartChanges(reading, a, b, children, changes, path, name);
    }
  }

  /** A part that only one side has is one change. */
  lemma OnePart(naming: Naming, reading: Reading, path: Path, a: Node, b: Node, name: Name)
    requires a.Branch? && b.Branch? && (name in a.children || name in b.children)
    requires !(name in a.children && name in b.children) && Reads(naming, reading, Subtrees(b))
    ensures Under(WalkPart(naming, path, a, b, name), path, [name])
    ensures Patched(reading, PartOf(a.children, name), WalkPart(naming, path, a, b, name), |path| + 1)
            == PartOf(b.children, name)
  {
    var changes := WalkPart(naming, path, a, b, name);
    assert changes[..0] == [];
    if name in b.children {
      PartReads(naming, reading, b, name);
      SubtreesClosed(b.children[name]);
    }
  }

  /** Changes under one name that carry that part over carry the branch over. */
  lemma PartChanges(reading: Reading, a: Node, b: Node, children: map<Name, Node>, changes: seq<Change>, path: Path,
                    name: Name)
    requires a.Branch? && b.Branch? && PartOf(children, name) == PartOf(a.children, name)
    requires Under(changes, path, [name])
    requires Patched(reading, PartOf(a.children, name), changes, |path| + 1) == PartOf(b.children, name)
    ensures forall c :: c in changes ==> |path| <= |c.path|
    ensures Patched(reading, Some(Branch(children)), changes, |path|)
            == Some(Branch(With(children, name, PartOf(b.children, name))))
  {
    hide Patched, Put, Read, With;
    PatchedUnder(reading, children, changes, |path|, name);
  }

  lemma PartReads(naming: Naming, reading: Reading, b: Node, name: Name)
    requires b.Branch? && name in b.children && Reads(naming, reading, Subtrees(b))
    ensures Reads(naming, reading, Subtrees(b.children[name]))
  {
    forall n | n in Subtrees(b.children[name]) ensures n in Subtrees(b) {}
  }

  // ---------------------------------------------------------------------------------------------
  // The walk of the store

  /** The lines of a report written so far. */
  class Report<T> {
    var lines: seq<T>

    constructor ()
      ensures lines == []
    {
      lines := [];
    }

    method Push(line: T)
      modifies this
      ensures lines == old(lines) + [line]
    {
      lines := lines + [line];
    }
  }

  /** The name a comparison fails for, if it does: `before` first, then `after`. Two equal names never fail, held or
      not. */
  ghost function Missing(store: StateStore, before: Digest, after: Digest): Option<Digest>
    reads store
  {
    if before == after then None
    else if before !in store.nodes then Some(before)
    else if after !in store.nodes then Some(after)
    else None
  }

  /** What the walk that descends everywhere finds between two states of the store. */
  ghost function Difference(store: StateStore, path: Path, before: Digest, after: Digest): seq<Change>
    reads store
    requires store.Valid()
  {
    if before in store.nodes && after in store.nodes
    then Walk(store.naming, path, store.Named(before), store.Named(after)) else []
  }

  /** What the store holds under a name it has, as a line of a report. */
  method ContentsAt(store: StateStore, d: Digest) returns (c: Option<Contents>)
    requires store.Valid()
    ensures c.None? <==> d !in store.nodes
    ensures c.Some? ==> c.value == ContentsOf(store.naming, store.Named(d))
  {
    var held := store.Held(d);
    match held
    case None => return None;
    case Some(LeafShell(bytes)) => return Some(LeafContents(bytes));
    case Some(BranchShell(_)) => return Some(BranchContents(d));
  }

  /** The walk that stops wherever two names agree writes what the one that descends everywhere does. */
  method Descend(store: StateStore, path: Path, before: Digest, after: Digest, report: Report<Change>)
    returns (missing: Option<Digest>)
    requires store.Valid()
    modifies report
    ensures missing == Missing(store, before, after)
    ensures missing.None? && before != after ==>
              report.lines == old(report.lines) + Difference(store, path, before, after)
    ensures missing.Some? || before == after ==> report.lines == old(report.lines)
    decreases if before in store.nodes then store.Named(before) else Leaf([]), 2, 0
  {
    hide Closed, Tells, Mirrors, Ascending, Before;
    if before == after {
      return None;
    }
    var was := store.Held(before);
    if was.None? {
      return Some(before);
    }
    var now := store.Held(after);
    if now.None? {
      return Some(after);
    }
    if was.value.LeafShell? || now.value.LeafShell? {
      var w := ContentsAt(store, before);
      var n := ContentsAt(store, after);
      report.Push(Changed(path, w.value, n.value));
      return None;
    }
    DescendParts(store, path, before, after, was.value.names, now.value.names, report);
    return None;
  }

  method DescendParts(store: StateStore, path: Path, before: Digest, after: Digest,
                      was: map<Name, Digest>, now: map<Name, Digest>, report: Report<Change>)
    requires store.Valid() && before in store.nodes && after in store.nodes
    requires BranchShell(was) == Stored(store.naming, store.Named(before))
    requires BranchShell(now) == Stored(store.naming, store.Named(after))
    modifies report
    ensures report.lines == old(report.lines) + Difference(store, path, before, after)
    decreases store.Named(before), 1, 0
  {
    hide Closed, Tells, Mirrors, Ascending, Before, Stored;
    ghost var a, b := store.Named(before), store.Named(after);
    StoredParts(store.naming, a, was);
    StoredParts(store.naming, b, now);
    var names := Sorted(was.Keys + now.Keys);
    var i := 0;
    while i < |names|
      invariant 0 <= i <= |names| && Parts(a, b, names[..i])
      invariant report.lines == old(report.lines) + WalkParts(store.naming, path, a, b, names[..i])
    {
      WalkPartsMore(store.naming, path, a, b, names, i);
      DescendPart(store, path, a, b, was, now, names[i], report);
      Regroup(old(report.lines), WalkParts(store.naming, path, a, b, names[..i]),
              WalkPart(store.naming, path, a, b, names[i]));
      i := i + 1;
    }
    TakeAll(names);
  }

  lemma StoredParts(naming: Naming, node: Node, names: map<Name, Digest>)
    requires BranchShell(names) == Stored(naming, node)
    ensures node.Branch? && names.Keys == node.children.Keys
  {}

  lemma Regroup<T>(p: seq<T>, q: seq<T>, r: seq<T>)
    ensures p + q + r == p + (q + r)
  {}

  /** Compares one part. A part one side lacks is one change, however much is under it. */
  method DescendPart(store: StateStore, path: Path, ghost a: Node, ghost b: Node,
                     was: map<Name, Digest>, now: map<Name, Digest>, name: Name, report: Report<Change>)
    requires store.Valid() && a in store.held && b in store.held && a.Branch? && b.Branch?
    requires BranchShell(was) == Stored(store.naming, a) && BranchShell(now) == Stored(store.naming, b)
    requires name in was || name in now
    modifies report
    ensures report.lines == old(report.lines) + WalkPart(store.naming, path, a, b, name)
    decreases a, 0, 0
  {
    hide Closed, Tells, Mirrors, Ascending, Before;
    if name in was {
      store.ChildNamed(a, name);
    }
    if name in now {
      store.ChildNamed(b, name);
    }
    if name in was && name in now {
      var missing := Descend(store, path + [name], was[name], now[name], report);
      EmptyIffEqual(store.naming, path + [name], a.children[name], b.children[name]);
    } else if name in was {
      var c := ContentsAt(store, was[name]);
      report.Push(Removed(path + [name], c.value));
    } else {
      var c := ContentsAt(store, now[name]);
      report.Push(Added(path + [name], c.value));
    }
  }

  /** Every difference between two states of the store, or the state it never saw. */
  method Compare(store: StateStore, before: Digest, after: Digest) returns (r: Result<seq<Change>, Digest>)
    requires store.Valid()
    ensures match Missing(store, before, after)
            case Some(d) => r == Err(d)
            case None => r == Ok(Difference(store, [], before, after))
    ensures r.Ok? ==> (r.value == [] <==> before == after)
  {
    hide Closed, Tells, Mirrors, Ascending, Before;
    var report := new Report<Change>();
    var missing := Descend(store, [], before, after, report);
    if before in store.nodes && after in store.nodes {
      EmptyIffEqual(store.naming, [], store.Named(before), store.Named(after));
    }
    assert [] + Difference(store, [], before, after) == Difference(store, [], before, after);
    return if missing.None? then Ok(report.lines) else Err(missing.value);
  }

  // ---------------------------------------------------------------------------------------------
  // One state written out

  type Line = (Path, Contents)

  /** What stands at every leaf of a state. A branch of nothing stands for itself. */
  function Listing(naming: Naming, path: Path, node: Node): seq<Line>
    decreases node, 1, 0
  {
    match node
    case Leaf(bytes) => [(path, LeafContents(bytes))]
    case Branch(children) =>
      if children == map[] then [(path, BranchContents(naming(node)))]
      else ListParts(naming, path, node, Sorted(children.Keys))
  }

  function ListParts(naming: Naming, path: Path, node: Node, names: seq<Name>): seq<Line>
    requires node.Branch? && forall name :: name in names ==> name in node.children
    decreases node, 0, |names|
  {
    if names == [] then []
    else
      var n := |names| - 1;
      ListParts(naming, path, node, names[..n]) + Listing(naming, path + [names[n]], node.children[names[n]])
  }

  lemma ListPartsMore(naming: Naming, path: Path, node: Node, names: seq<Name>, i: nat)
    requires node.Branch? && (forall name :: name in names ==> name in node.children) && i < |names|
    ensures forall name :: name in names[..i] || name in names[..i + 1] ==> name in node.children
    ensures ListParts(naming, path, node, names[..i + 1])
            == ListParts(naming, path, node, names[..i])
               + Listing(naming, path + [names[i]], node.children[names[i]])
  {
    TakeMore(names, i);
    assert names[..i + 1][..i] == names[..i];
  }

  /** Every line is under `path`. */
  ghost predicate LinesAt(lines: seq<Line>, path: Path) {
    forall l :: l in lines ==> |l.0| >= |path| && l.0[..|path|] == path
  }

  lemma {:induction false} ListingAt(naming: Naming, path: Path, node: Node)
    ensures LinesAt(Listing(naming, path, node), path) && Listing(naming, path, node) != []
    ensures node.Branch? && node.children != map[] ==>
              forall l :: l in Listing(naming, path, node) ==> |l.0| > |path|
    decreases node, 1, 0
  {
    if node.Branch? && node.children != map[] {
      var names := Sorted(node.children.Keys);
      ListPartsAt(naming, path, node, names);
    }
  }

  lemma {:induction false} ListPartsAt(naming: Naming, path: Path, node: Node, names: seq<Name>)
    requires node.Branch? && forall name :: name in names ==> name in node.children
    ensures LinesAt(ListParts(naming, path, node, names), path)
    ensures forall l :: l in ListParts(naming, path, node, names) ==> |l.0| > |path| && l.0[|path|] in names
    ensures names != [] ==> ListParts(naming, path, node, names) != []
    decreases node, 0, |names|
  {
    if names != [] {
      var n := |names| - 1;
      TakeMore(names, n);
      TakeAll(names);
      ListPartsMore(naming, path, node, names, n);
      ListPartsAt(naming, path, node, names[..n]);
      ListingAt(naming, path + [names[n]], node.children[names[n]]);
      LinesNamed(Listing(naming, path + [names[n]], node.children[names[n]]), path, names[n]);
    }
  }

  lemma LinesNamed(lines: seq<Line>, path: Path, name: Name)
    requires LinesAt(lines, path + [name])
    ensures LinesAt(lines, path) && forall l :: l in lines ==> |l.0| > |path| && l.0[|path|] == name
  {
    forall l | l in lines ensures l.0[..|path|] == path && l.0[|path|] == name {
      assert l.0[..|path| + 1] == path + [name];
      assert l.0[..|path|] == l.0[..|path| + 1][..|path|] == path;
      assert l.0[|path|] == l.0[..|path| + 1][|path|];
    }
  }

  /** The lines whose path goes through `name` at its `k`th step. */
  function Through(lines: seq<Line>, k: nat, name: Name): seq<Line> {
    if lines == [] then []
    else
      var n := |lines| - 1;
      var l := lines[n];
      Through(lines[..n], k, name) + (if k < |l.0| && l.0[k] == name then [l] else [])
  }

  lemma {:induction false} ThroughJoin(p: seq<Line>, q: seq<Line>, k: nat, name: Name)
    ensures Through(p + q, k, name) == Through(p, k, name) + Through(q, k, name)
  {
    if q == [] {
      assert p + q == p;
    } else {
      var n := |q| - 1;
      assert (p + q)[..|p + q| - 1] == p + q[..n];
      ThroughJoin(p, q[..n], k, name);
    }
  }

  lemma {:induction false} ThroughOne(lines: seq<Line>, k: nat, name: Name, other: Name)
    requires forall l :: l in lines ==> |l.0| > k && l.0[k] == name
    ensures Through(lines, k, other) == if other == name then lines else []
  {
    if lines != [] {
      var n := |lines| - 1;
      assert lines[n] in lines;
      ThroughOne(lines[..n], k, name, other);
      assert lines == lines[..n] + [lines[n]];
    }
  }

  /** The lines through one name are that part's own. */
  lemma {:induction false} ThroughPart(naming: Naming, path: Path, node: Node, names: seq<Name>, name: Name)
    requires node.Branch? && (forall part :: part in names ==> part in node.children) && Ascending(names)
    ensures Through(ListParts(naming, path, node, names), |path|, name)
            == if name in names then Listing(naming, path + [name], node.children[name]) else []
    decreases |names|
  {
    if names != [] {
      hide Listing, ListParts, Before, LinesAt;
      var n := |names| - 1;
      TakeMore(names, n);
      TakeAll(names);
      ListPartsMore(naming, path, node, names, n);
      var part := Listing(naming, path + [names[n]], node.children[names[n]]);
      ThroughPart(naming, path, node, names[..n], name);
      ThroughJoin(ListParts(naming, path, node, names[..n]), part, |path|, name);
      ListingAt(naming, path + [names[n]], node.children[names[n]]);
      LinesNamed(part, path, names[n]);
      ThroughOne(part, |path|, names[n], name);
      hide Through;
      LastIsNew(names, name);
    }
  }

  lemma LastIsNew(names: seq<Name>, name: Name)
    requires Ascending(names) && names != []
    ensures name in names[..|names| - 1] ==> name != names[|names| - 1]
  {
    if name in names[..|names| - 1] && name == names[|names| - 1] {
      var i :| 0 <= i < |names| - 1 && names[..|names| - 1][i] == name;
      AscendingDistinct(names, i, |names| - 1);
    }
  }

  /** The listing is one to one: equal listings come of equal trees. */
  lemma {:induction false} ListingTells(naming: Naming, path: Path, a: Node, b: Node)
    requires Listing(naming, path, a) == Listing(naming, path, b)
    ensures a == b
    decreases a
  {
    ListingAt(naming, path, a);
    ListingAt(naming, path, b);
    var l := Listing(naming, path, a)[0];
    assert l in Listing(naming, path, a);
    if a.Branch? && b.Branch? && a.children != map[] && b.children != map[] {
      hide Listing, LinesAt;
      forall name | name in a.children || name in b.children
        ensures name in a.children && name in b.children && a.children[name] == b.children[name]
      {
        SamePart(naming, path, a, b, name);
        ListingTells(naming, path + [name], a.children[name], b.children[name]);
      }
      assert a.children == b.children;
    }
  }

  lemma SamePart(naming: Naming, path: Path, a: Node, b: Node, name: Name)
    requires Listing(naming, path, a) == Listing(naming, path, b)
    requires a.Branch? && b.Branch? && a.children != map[] && b.children != map[]
    requires name in a.children || name in b.children
    ensures name in a.children && name in b.children
    ensures Listing(naming, path + [name], a.children[name]) == Listing(naming, path + [name], b.children[name])
  {
    ThroughPart(naming, path, a, Sorted(a.children.Keys), name);
    ThroughPart(naming, path, b, Sorted(b.children.Keys), name);
    if name in a.children { ListingAt(naming, path + [name], a.children[name]); }
    if name in b.children { ListingAt(naming, path + [name], b.children[name]); }
  }

  /** Appends exactly the listing of `node`, its paths beginning with `path`. */
  method Gather(naming: Naming, path: Path, node: Node, report: Report<Line>)
    modifies report
    ensures report.lines == old(report.lines) + Listing(naming, path, node)
    decreases node
  {
    hide Ascending, Before;
    match node
    case Leaf(bytes) => report.Push((path, LeafContents(bytes)));
    case Branch(children) =>
      if children == map[] {
        report.Push((path, BranchContents(naming(node))));
        return;
      }
      var names := Sorted(children.Keys);
      var i := 0;
      while i < |names|
        invariant 0 <= i <= |names| && forall name :: name in names[..i] ==> name in children
        invariant report.lines == old(report.lines) + ListParts(naming, path, node, names[..i])
      {
        ListPartsMore(naming, path, node, names, i);
        Gather(naming, path + [names[i]], children[names[i]], report);
        Regroup(old(report.lines), ListParts(naming, path, node, names[..i]),
                Listing(naming, path + [names[i]], children[names[i]]));
        i := i + 1;
      }
      TakeAll(names);
  }
}
