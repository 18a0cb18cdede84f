/** Trees of named parts, and the one-node shells a store keeps of them. */
module Tree {
  import opened Bytes

  type Name = string

  datatype Node = Leaf(bytes: seq<byte>) | Branch(children: map<Name, Node>)

  type Digest = d: seq<byte> | |d| == 32 witness seq(32, _ => 0)
  /** A node as its encoding sees it: bytes, or the names of its children. */
  datatype Shell = LeafShell(bytes: seq<byte>) | BranchShell(names: map<Name, Digest>)

  /** What each state is called. */
  type Naming = Node -> Digest

  function Stored(name: Naming, node: Node): Shell {
    match node
    case Leaf(bytes) => LeafShell(bytes)
    case Branch(children) => BranchShell(map part | part in children :: name(children[part]))
  }

  /** No two of these states are called alike. */
  ghost predicate Tells(name: Naming, nodes: set<Node>) {
    forall n, m :: n in nodes && m in nodes && name(n) == name(m) ==> n == m
  }

  /** A node and everything under it. */
  function Subtrees(node: Node): set<Node> {
    match node
    case Leaf(_) => {node}
    case Branch(children) => {node} + set name, n | name in children && n in Subtrees(children[name]) :: n
  }

  /** Everything under any of the nodes is one of them. */
  ghost predicate Closed(nodes: set<Node>) {
    forall n, name :: n in nodes && n.Branch? && name in n.children ==> n.children[name] in nodes
  }

  lemma {:induction false} SubtreesClosed(node: Node)
    ensures node in Subtrees(node) && Closed(Subtrees(node))
  {
    if node.Branch? {
      forall name | name in node.children ensures
        node.children[name] in Subtrees(node.children[name]) && Closed(Subtrees(node.children[name]))
      {
        SubtreesClosed(node.children[name]);
      }
    }
  }
}
