/** Names for trees: each node is encoded in one way only, its children by their names, and the encoding hashed. */
module Hashing {
  import opened Order
  import opened Bytes
  import opened Tree

  // ---------------------------------------------------------------------------------------------
  // The names states answer to

  /** A hash function: the engine's is BLAKE3, and nothing here depends on which. */
  type Hash = seq<byte> -> Digest

  const LEAF_TAG: byte := 0
  const BRANCH_TAG: byte := 1

  function Length(n: nat): seq<byte> {
    Le(if n < 0x1_0000_0000_0000_0000 then n else 0xFFFF_FFFF_FFFF_FFFF, 8)
  }

  function ChildBytes(names: seq<Name>, children: map<Name, Digest>): seq<byte>
    requires forall name :: name in names ==> name in children
  {
    if names == [] then []
    else Length(|Utf8(names[0])|) + (Utf8(names[0]) + (children[names[0]] + ChildBytes(names[1..], children)))
  }

  /** The canonical encoding of a node. */
  function ShellBytes(shell: Shell): seq<byte> {
    match shell
    case LeafShell(bytes) => [LEAF_TAG] + (Length(|bytes|) + bytes)
    case BranchShell(children) =>
      [BRANCH_TAG] + (Length(|children|) + ChildBytes(Sorted(children.Keys), children))
  }

  /** No name is longer than a machine can hold. */
  predicate Sized(shell: Shell) {
    shell.BranchShell? ==> forall name :: name in shell.names ==> |Utf8(name)| < 0x1_0000_0000_0000_0000
  }

  lemma Cancel(a: seq<byte>, x: seq<byte>, b: seq<byte>, y: seq<byte>)
    requires |a| == |b| && a + x == b + y
    ensures a == b && x == y
  {
    assert a == (a + x)[..|a|] && b == (b + y)[..|b|];
    assert x == (a + x)[|a|..] && y == (b + y)[|b|..];
  }

  lemma LengthInjective(n: nat, m: nat)
    requires n < 0x1_0000_0000_0000_0000 && m < 0x1_0000_0000_0000_0000 && Length(n) == Length(m)
    ensures n == m
  {
    SpanEight();
    LeRoundTrip(n, 8);
    LeRoundTrip(m, 8);
  }

  /** One child's part of an encoding tells its name, its hash and what follows. */
  lemma ChildDecode(a: Name, x: Digest, rest: seq<byte>, b: Name, y: Digest, others: seq<byte>)
    requires |Utf8(a)| < 0x1_0000_0000_0000_0000 && |Utf8(b)| < 0x1_0000_0000_0000_0000
    requires Length(|Utf8(a)|) + (Utf8(a) + (x + rest)) == Length(|Utf8(b)|) + (Utf8(b) + (y + others))
    ensures a == b && x == y && rest == others
  {
    Cancel(Length(|Utf8(a)|), Utf8(a) + (x + rest), Length(|Utf8(b)|), Utf8(b) + (y + others));
    LengthInjective(|Utf8(a)|, |Utf8(b)|);
    Cancel(Utf8(a), x + rest, Utf8(b), y + others);
    Utf8Injective(a, b);
    Cancel(x, rest, y, others);
  }

  lemma ChildBytesEmpty(names: seq<Name>, children: map<Name, Digest>)
    requires forall name :: name in names ==> name in children
    ensures ChildBytes(names, children) == [] <==> names == []
  {}

  lemma {:induction false} ChildBytesDecode(names: seq<Name>, children: map<Name, Digest>, others: seq<Name>, theirs: map<Name, Digest>)
    requires forall name :: name in names ==> name in children && |Utf8(name)| < 0x1_0000_0000_0000_0000
    requires forall name :: name in others ==> name in theirs && |Utf8(name)| < 0x1_0000_0000_0000_0000
    requires ChildBytes(names, children) == ChildBytes(others, theirs)
    ensures names == others
    ensures forall name :: name in names ==> children[name] == theirs[name]
  {
    if names == [] || others == [] {
      ChildBytesEmpty(names, children);
      ChildBytesEmpty(others, theirs);
    } else {
      ChildDecode(names[0], children[names[0]], ChildBytes(names[1..], children),
                  others[0], theirs[others[0]], ChildBytes(others[1..], theirs));
      ChildBytesDecode(names[1..], children, others[1..], theirs);
      assert names == [names[0]] + names[1..] && others == [others[0]] + others[1..];
    }
  }

  /** The encoding is uniquely decodable: no two nodes share one. */
  lemma ShellBytesInjective(a: Shell, b: Shell)
    requires Sized(a) && Sized(b) && ShellBytes(a) == ShellBytes(b)
    ensures a == b
  {
    assert ShellBytes(a)[0] == if a.LeafShell? then LEAF_TAG else BRANCH_TAG;
    assert ShellBytes(b)[0] == if b.LeafShell? then LEAF_TAG else BRANCH_TAG;
    if a.LeafShell? {
      Cancel([LEAF_TAG], Length(|a.bytes|) + a.bytes, [LEAF_TAG], Length(|b.bytes|) + b.bytes);
      Cancel(Length(|a.bytes|), a.bytes, Length(|b.bytes|), b.bytes);
    } else {
      var names, others := Sorted(a.names.Keys), Sorted(b.names.Keys);
      var x, y := ChildBytes(names, a.names), ChildBytes(others, b.names);
      Cancel([BRANCH_TAG], Length(|a.names|) + x, [BRANCH_TAG], Length(|b.names|) + y);
      Cancel(Length(|a.names|), x, Length(|b.names|), y);
      ChildBytesDecode(names, a.names, others, b.names);
      assert forall name :: name in a.names <==> name in names;
      assert a.names == b.names;
    }
  }

  function ShellOf(h: Hash, node: Node): Shell
    decreases node, 0
  {
    match node
    case Leaf(bytes) => LeafShell(bytes)
    case Branch(children) => BranchShell(map name | name in children :: StateHash(h, children[name]))
  }

  /** A node's name: the hash of its encoding, in which each child stands as its own name. */
  function StateHash(h: Hash, node: Node): Digest
    decreases node, 1
  {
    h(ShellBytes(ShellOf(h, node)))
  }

  /** Feeds the hash a node piece by piece, each child hashed on the way, and what comes out is the name of
      the whole. */
  method HashNode(h: Hash, node: Node) returns (d: Digest)
    ensures d == StateHash(h, node)
    decreases node
  {
    hide Length, Utf8, ChildBytes, ShellBytes, Ascending;
    var fed: seq<byte>;
    match node {
      case Leaf(bytes) =>
        fed := [LEAF_TAG] + (Length(|bytes|) + bytes);
        LeafFed(bytes);
      case Branch(children) =>
        ghost var named := ShellOf(h, node).names;
        fed := [BRANCH_TAG] + Length(|children|);
        var names := Sorted(children.Keys);
        BranchFed(children, named, names);
        var i := 0;
        while i < |names|
          invariant 0 <= i <= |names|
          invariant fed + ChildBytes(names[i..], named) == ShellBytes(BranchShell(named))
        {
          var child := HashNode(h, children[names[i]]);
          Fed(fed, names, i, named);
          fed := fed + (Length(|Utf8(names[i])|) + (Utf8(names[i]) + child));
          i := i + 1;
        }
        AllFed(fed, names, named);
    }
    d := h(fed);
  }

  lemma LeafFed(bytes: seq<byte>)
    ensures [LEAF_TAG] + (Length(|bytes|) + bytes) == ShellBytes(LeafShell(bytes))
  {}

  lemma BranchFed(children: map<Name, Node>, named: map<Name, Digest>, names: seq<Name>)
    requires named.Keys == children.Keys && names == Sorted(children.Keys)
    ensures [BRANCH_TAG] + Length(|children|) + ChildBytes(names[0..], named) == ShellBytes(BranchShell(named))
  {
    hide Length, ChildBytes, Ascending;
    assert names[0..] == names && |named| == |named.Keys| == |children.Keys| == |children|;
    Rejoined([BRANCH_TAG], Length(|children|), ChildBytes(names, named));
  }

  lemma AllFed(fed: seq<byte>, names: seq<Name>, named: map<Name, Digest>)
    requires forall name :: name in names ==> name in named
    ensures fed + ChildBytes(names[|names|..], named) == fed
  {}

  lemma Fed(fed: seq<byte>, names: seq<Name>, i: nat, named: map<Name, Digest>)
    requires i < |names| && forall name :: name in names ==> name in named
    ensures var child := Length(|Utf8(names[i])|) + (Utf8(names[i]) + named[names[i]]);
            fed + ChildBytes(names[i..], named) == (fed + child) + ChildBytes(names[i + 1..], named)
  {
    hide Length, Utf8;
    assert names[i..][1..] == names[i + 1..];
    var a, b, c, rest := Length(|Utf8(names[i])|), Utf8(names[i]), named[names[i]], ChildBytes(names[i + 1..], named);
    Joined(a, b, c, rest);
    Rejoined(fed, a + (b + c), rest);
  }

  lemma Joined(a: seq<byte>, b: seq<byte>, c: seq<byte>, d: seq<byte>)
    ensures a + (b + (c + d)) == (a + (b + c)) + d
  {}

  lemma Rejoined(a: seq<byte>, b: seq<byte>, c: seq<byte>)
    ensures a + (b + c) == (a + b) + c
  {}

  /** The hash tells the encodings of these nodes apart, and none holds a name too long to write.

      What is asked of the hash is only that the states in play do not collide: no hash of a fixed
      width could keep all byte strings apart. */
  ghost predicate Distinct(h: Hash, nodes: set<Node>) {
    && (forall n :: n in nodes ==> Sized(ShellOf(h, n)))
    && (forall n, m :: n in nodes && m in nodes && StateHash(h, n) == StateHash(h, m)
          ==> ShellBytes(ShellOf(h, n)) == ShellBytes(ShellOf(h, m)))
  }

  lemma SameShell(h: Hash, nodes: set<Node>, a: Node, b: Node)
    requires Distinct(h, nodes) && a in nodes && b in nodes && StateHash(h, a) == StateHash(h, b)
    ensures ShellOf(h, a) == ShellOf(h, b)
  {
    ShellBytesInjective(ShellOf(h, a), ShellOf(h, b));
  }

  lemma ShellNames(h: Hash, a: Node, b: Node)
    requires a.Branch? && ShellOf(h, a) == ShellOf(h, b)
    ensures b.Branch? && a.children.Keys == b.children.Keys
    ensures forall name :: name in a.children ==> StateHash(h, a.children[name]) == StateHash(h, b.children[name])
  {
    var x, y := ShellOf(h, a).names, ShellOf(h, b).names;
    assert x.Keys == a.children.Keys && y.Keys == b.children.Keys;
    forall name | name in a.children ensures StateHash(h, a.children[name]) == StateHash(h, b.children[name]) {
      assert x[name] == StateHash(h, a.children[name]) && y[name] == StateHash(h, b.children[name]);
    }
  }

  /** Two states that hash alike are one state. */
  lemma {:induction false} HashTells(h: Hash, nodes: set<Node>, a: Node, b: Node)
    requires Closed(nodes) && Distinct(h, nodes) && a in nodes && b in nodes
    requires StateHash(h, a) == StateHash(h, b)
    ensures a == b
    decreases a
  {
    SameShell(h, nodes, a, b);
    if a.Branch? {
      ShellNames(h, a, b);
      forall name | name in a.children ensures a.children[name] == b.children[name] {
        HashTells(h, nodes, a.children[name], b.children[name]);
      }
      assert a.children == b.children;
    }
  }

  /** For any two states whose parts the hash tells apart: they answer to one name exactly when they
      are one state. */
  lemma StatesHashAlikeIffEqual(h: Hash, a: Node, b: Node)
    requires Distinct(h, Subtrees(a) + Subtrees(b))
    ensures StateHash(h, a) == StateHash(h, b) <==> a == b
  {
    SubtreesClosed(a);
    SubtreesClosed(b);
    if StateHash(h, a) == StateHash(h, b) {
      HashTells(h, Subtrees(a) + Subtrees(b), a, b);
    }
  }

  /** The naming a hash function gives. */
  function NamedBy(h: Hash): Naming {
    node => StateHash(h, node)
  }

  /** What is hashed is one node with its children named. */
  lemma HashesStored(h: Hash, node: Node)
    ensures StateHash(h, node) == h(ShellBytes(Stored(NamedBy(h), node)))
  {
    assert ShellOf(h, node) == Stored(NamedBy(h), node);
  }

  /** A hash that tells the encodings of some states apart names each of them alone. */
  lemma DistinctTells(h: Hash, nodes: set<Node>)
    requires Closed(nodes) && Distinct(h, nodes)
    ensures Tells(NamedBy(h), nodes)
  {
    forall n, m | n in nodes && m in nodes && NamedBy(h)(n) == NamedBy(h)(m) ensures n == m {
      HashTells(h, nodes, n, m);
    }
  }
}
