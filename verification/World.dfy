/** The state a run carries, the tree it is hashed as, and the two encodings read back exactly. */
module World {
  import opened Order
  import opened Bytes
  import opened Tree
  import opened Wrappers

  // ---------------------------------------------------------------------------------------------
  // Values

  datatype Value = Flag(flag: bool) | Count(count: u64) | Text(text: string) | Instant(at: u64)

  const FLAG_TAG: byte := 0
  const COUNT_TAG: byte := 1
  const TEXT_TAG: byte := 2
  const INSTANT_TAG: byte := 3

  function ValueBytes(v: Value): seq<byte> {
    match v
    case Flag(flag) => [FLAG_TAG, if flag then 1 else 0]
    case Count(count) => [COUNT_TAG] + Le(count, 8)
    case Text(text) => [TEXT_TAG] + Utf8(text)
    case Instant(at) => [INSTANT_TAG] + Le(at, 8)
  }

  datatype DecodeValueError =
    | Empty
    | UnknownKind(tag: byte)
    | BadLength(expected: nat, found: nat)
    | BadFlag(flag: byte)
    | BadText

  function Eight(bs: seq<byte>): Result<u64, DecodeValueError> {
    if |bs| != 8 then Err(BadLength(8, |bs|))
    else
      FromLeRoundTrip(bs);
      SpanEight();
      Ok(FromLe(bs))
  }

  function DecodeValue(bs: seq<byte>): Result<Value, DecodeValueError> {
    if bs == [] then Err(Empty)
    else
      var rest := bs[1..];
      if bs[0] == FLAG_TAG then
        if |rest| != 1 then Err(BadLength(1, |rest|))
        else if rest[0] == 0 then Ok(Flag(false))
        else if rest[0] == 1 then Ok(Flag(true))
        else Err(BadFlag(rest[0]))
      else if bs[0] == COUNT_TAG then
        match Eight(rest)
        case Ok(n) => Ok(Count(n))
        case Err(e) => Err(e)
      else if bs[0] == TEXT_TAG then
        match FromUtf8(rest)
        case Some(text) => Ok(Text(text))
        case None => Err(BadText)
      else if bs[0] == INSTANT_TAG then
        match Eight(rest)
        case Ok(n) => Ok(Instant(n))
        case Err(e) => Err(e)
      else Err(UnknownKind(bs[0]))
  }

  lemma ValueRoundTrip(v: Value)
    ensures DecodeValue(ValueBytes(v)) == Ok(v)
  {
    SpanEight();
    match v
    case Flag(_) =>
    case Count(count) => LeRoundTrip(count, 8); assert ValueBytes(v)[1..] == Le(count, 8);
    case Text(text) => Utf8RoundTrip(text); assert ValueBytes(v)[1..] == Utf8(text);
    case Instant(at) => LeRoundTrip(at, 8); assert ValueBytes(v)[1..] == Le(at, 8);
  }

  /** Strict: what reads back as a value is what that value is written as. */
  lemma ValueStrict(bs: seq<byte>)
    requires DecodeValue(bs).Ok?
    ensures ValueBytes(DecodeValue(bs).value) == bs
  {
    var rest := bs[1..];
    assert bs == [bs[0]] + rest;
    if bs[0] == COUNT_TAG || bs[0] == INSTANT_TAG {
      FromLeRoundTrip(rest);
    } else if bs[0] == TEXT_TAG {
      FromUtf8RoundTrip(rest);
    } else {
      assert rest == [rest[0]];
    }
  }

  /** And what does not read back is refused for what is wrong with it: nothing there, a kind there is none of, the wrong
      number of bytes for its kind, a flag neither 0 nor 1, or bytes that are no text's. */
  lemma ValueRefusedFor(bs: seq<byte>, tag: byte, expected: nat, found: nat)
    ensures DecodeValue(bs) == Err(Empty) <==> bs == []
    ensures DecodeValue(bs) == Err(UnknownKind(tag)) <==> bs != [] && bs[0] == tag && tag > 3
    ensures DecodeValue(bs) == Err(BadLength(expected, found)) <==>
              bs != [] && found == |bs| - 1 != expected
              && ((expected == 1 && bs[0] == 0) || (expected == 8 && (bs[0] == 1 || bs[0] == 3)))
    ensures DecodeValue(bs) == Err(BadFlag(tag)) <==> bs == [0, tag] && tag > 1
    ensures DecodeValue(bs) == Err(BadText) <==> bs != [] && bs[0] == 2 && forall text :: Utf8(text) != bs[1..]
  {
    hide Utf8, FromUtf8;
    if bs != [] && bs[0] == 2 {
      if FromUtf8(bs[1..]).Some? {
        FromUtf8RoundTrip(bs[1..]);
      } else {
        forall text | Utf8(text) == bs[1..] ensures false { Utf8RoundTrip(text); }
      }
    }
    if |bs| == 2 { assert bs == [bs[0], bs[1]] && bs[1..][0] == bs[1]; }
  }

  // ---------------------------------------------------------------------------------------------
  // Worlds and the trees they are written as

  type Resource = map<Name, Value>
  type World = map<Name, Resource>

  /** Every part of `m`, each written as a tree. */
  function WriteAll<V>(m: map<Name, V>, write: V -> Node): map<Name, Node> {
    map name | name in m :: write(m[name])
  }

  const WRITE_VALUE: Value -> Node := v => Leaf(ValueBytes(v))

  function ResourceTree(r: Resource): Node {
    Branch(WriteAll(r, WRITE_VALUE))
  }

  const WRITE_RESOURCE: Resource -> Node := r => ResourceTree(r)

  function Snapshot(w: World): Node {
    Branch(WriteAll(w, WRITE_RESOURCE))
  }

  datatype DecodeWorldError =
    | NotAWorld
    | NotAResource(resource: Name)
    | NotAValue(resource: Name, field: Name)
    | BadValue(resource: Name, field: Name, error: DecodeValueError)

  /** Reads the children called `names`, in that order, stopping at the first that cannot be read. */
  function Children<V, E>(names: seq<Name>, children: map<Name, Node>, read: (Name, Node) -> Result<V, E>): Result<map<Name, V>, E>
    requires forall name :: name in names ==> name in children
  {
    if names == [] then Ok(map[])
    else match read(names[0], children[names[0]])
      case Err(e) => Err(e)
      case Ok(v) =>
        match Children(names[1..], children, read)
        case Err(e) => Err(e)
        case Ok(rest) => Ok(rest[names[0] := v])
  }

  lemma {:induction false} ChildrenOk<V, E>(names: seq<Name>, children: map<Name, Node>, read: (Name, Node) -> Result<V, E>)
    requires forall name :: name in names ==> name in children
    ensures var r := Children(names, children, read);
            && (r.Ok? <==> forall name :: name in names ==> read(name, children[name]).Ok?)
            && (r.Ok? ==> (forall name :: name in r.value <==> name in names)
                          && forall name :: name in names ==> read(name, children[name]) == Ok(r.value[name]))
  {
    if names != [] {
      ChildrenOk(names[1..], children, read);
      assert forall name :: name in names <==> name == names[0] || name in names[1..];
    }
  }

  /** The child a failure to read is about is the first that cannot be read. */
  ghost predicate FirstFault<V, E>(children: map<Name, Node>, read: (Name, Node) -> Result<V, E>, name: Name, error: E) {
    && name in children && read(name, children[name]) == Err(error)
    && forall other :: other in children && Before(other, name) ==> read(other, children[other]).Ok?
  }

  lemma {:induction false} ChildrenErr<V, E>(names: seq<Name>, children: map<Name, Node>, read: (Name, Node) -> Result<V, E>)
    returns (i: nat)
    requires forall name :: name in names ==> name in children
    requires Children(names, children, read).Err?
    ensures i < |names| && read(names[i], children[names[i]]) == Err(Children(names, children, read).error)
    ensures forall k :: 0 <= k < i ==> read(names[k], children[names[k]]).Ok?
  {
    if read(names[0], children[names[0]]).Err? {
      i := 0;
    } else {
      i := ChildrenErr(names[1..], children, read);
      i := i + 1;
    }
  }

  lemma EarlierPlace(names: seq<Name>, k: nat, i: nat)
    requires Ascending(names) && k < |names| && i < |names| && Before(names[k], names[i])
    ensures k < i
  {
    hide Before;
    if k == i {
      BeforeIrreflexive(names[i]);
    } else if k > i {
      BeforeTransitive(names[i], names[k], names[i]);
      BeforeIrreflexive(names[i]);
    }
  }

  lemma ErrIsFirst<V, E>(children: map<Name, Node>, read: (Name, Node) -> Result<V, E>)
    requires Children(Sorted(children.Keys), children, read).Err?
    ensures exists name :: FirstFault(children, read, name, Children(Sorted(children.Keys), children, read).error)
  {
    hide Children, Ascending, Before;
    var names := Sorted(children.Keys);
    var i := ChildrenErr(names, children, read);
    forall other | other in children && Before(other, names[i]) ensures read(other, children[other]).Ok? {
      assert other in names;
      var k :| 0 <= k < |names| && names[k] == other;
      EarlierPlace(names, k, i);
    }
    assert names[i] in names;
    assert FirstFault(children, read, names[i], Children(names, children, read).error);
  }

  function ReadField(resource: Name, field: Name, node: Node): Result<Value, DecodeWorldError> {
    match node
    case Branch(_) => Err(NotAValue(resource, field))
    case Leaf(bytes) =>
      match DecodeValue(bytes)
      case Ok(v) => Ok(v)
      case Err(error) => Err(BadValue(resource, field, error))
  }

  function FieldReader(resource: Name): (Name, Node) -> Result<Value, DecodeWorldError> {
    (field, node) => ReadField(resource, field, node)
  }

  function ReadResource(resource: Name, node: Node): Result<Resource, DecodeWorldError> {
    match node
    case Leaf(_) => Err(NotAResource(resource))
    case Branch(fields) => Children(Sorted(fields.Keys), fields, FieldReader(resource))
  }

  const RESOURCE_READER: (Name, Node) -> Result<Resource, DecodeWorldError> :=
    (resource, node) => ReadResource(resource, node)

  /** The world a tree is written from, or the first thing wrong with it. */
  function DecodeWorld(node: Node): Result<World, DecodeWorldError> {
    match node
    case Leaf(_) => Err(NotAWorld)
    case Branch(resources) => Children(Sorted(resources.Keys), resources, RESOURCE_READER)
  }

  /** Reading children back what they were written as, given that it works for one child. */
  lemma ChildrenRoundTrip<V, E>(m: map<Name, V>, read: (Name, Node) -> Result<V, E>, write: V -> Node)
    requires forall name, v :: read(name, write(v)) == Ok(v)
    ensures var children := WriteAll(m, write);
            Children(Sorted(children.Keys), children, read) == Ok(m)
  {
    var children := WriteAll(m, write);
    ChildrenOk(Sorted(children.Keys), children, read);
    var r := Children(Sorted(children.Keys), children, read);
    forall name | name in m ensures read(name, children[name]) == Ok(m[name]) {}
    assert r.Ok?;
    assert r.value == m;
  }

  lemma ChildrenStrict<V, E>(children: map<Name, Node>, read: (Name, Node) -> Result<V, E>, write: V -> Node)
    requires forall name, node {:trigger read(name, node)} :: read(name, node).Ok? ==> node == write(read(name, node).value)
    requires Children(Sorted(children.Keys), children, read).Ok?
    ensures var m := Children(Sorted(children.Keys), children, read).value;
            children == WriteAll(m, write)
  {
    var names := Sorted(children.Keys);
    ChildrenOk(names, children, read);
    var m := Children(names, children, read).value;
    hide Children, Ascending;
    forall name | name in children ensures name in m && children[name] == write(m[name]) {
      ChildStrict(name, children[name], read, write, m[name]);
    }
    WroteAll(children, m, write);
  }

  lemma ChildStrict<V, E>(name: Name, node: Node, read: (Name, Node) -> Result<V, E>, write: V -> Node, v: V)
    requires forall name, node {:trigger read(name, node)} :: read(name, node).Ok? ==> node == write(read(name, node).value)
    requires read(name, node) == Ok(v)
    ensures node == write(v)
  {}

  lemma WroteAll<V>(children: map<Name, Node>, m: map<Name, V>, write: V -> Node)
    requires forall name :: name in m <==> name in children
    requires forall name :: name in children ==> children[name] == write(m[name])
    ensures children == WriteAll(m, write)
  {}

  lemma FieldRoundTrip(resource: Name, field: Name, v: Value)
    ensures FieldReader(resource)(field, WRITE_VALUE(v)) == Ok(v)
  {
    ValueRoundTrip(v);
  }

  lemma FieldStrict(resource: Name, field: Name, node: Node)
    requires FieldReader(resource)(field, node).Ok?
    ensures node == WRITE_VALUE(FieldReader(resource)(field, node).value)
  {
    ValueStrict(node.bytes);
  }

  lemma ResourceRoundTrip(resource: Name, r: Resource)
    ensures ReadResource(resource, ResourceTree(r)) == Ok(r)
  {
    forall field, v ensures FieldReader(resource)(field, WRITE_VALUE(v)) == Ok(v) {
      FieldRoundTrip(resource, field, v);
    }
    ChildrenRoundTrip(r, FieldReader(resource), WRITE_VALUE);
  }

  lemma ResourceStrict(resource: Name, node: Node)
    requires ReadResource(resource, node).Ok?
    ensures node == ResourceTree(ReadResource(resource, node).value)
  {
    var read := FieldReader(resource);
    forall field, leaf | read(field, leaf).Ok? ensures leaf == WRITE_VALUE(read(field, leaf).value) {
      FieldStrict(resource, field, leaf);
    }
    ChildrenStrict(node.children, read, WRITE_VALUE);
  }

  /** What a world is written as reads back as that world. */
  lemma WorldRoundTrip(w: World)
    ensures DecodeWorld(Snapshot(w)) == Ok(w)
  {
    forall name, r ensures RESOURCE_READER(name, WRITE_RESOURCE(r)) == Ok(r) {
      ResourceRoundTrip(name, r);
    }
    ChildrenRoundTrip(w, RESOURCE_READER, WRITE_RESOURCE);
  }

  /** And nothing else reads back: a tree that reads as a world is the one that world is written as. */
  lemma WorldStrict(node: Node)
    requires DecodeWorld(node).Ok?
    ensures node == Snapshot(DecodeWorld(node).value)
  {
    forall name, tree | RESOURCE_READER(name, tree).Ok? ensures tree == WRITE_RESOURCE(RESOURCE_READER(name, tree).value) {
      ResourceStrict(name, tree);
    }
    ChildrenStrict(node.children, RESOURCE_READER, WRITE_RESOURCE);
  }

  /** Exactly the trees a world writes are accepted. */
  lemma AcceptsExactlyWorlds(node: Node)
    ensures DecodeWorld(node).Ok? <==> exists w: World :: node == Snapshot(w)
  {
    if DecodeWorld(node).Ok? {
      WorldStrict(node);
    }
    forall w: World | node == Snapshot(w) ensures DecodeWorld(node).Ok? {
      WorldRoundTrip(w);
    }
  }

  /** A refusal names the first resource that cannot be read, and in it the first field. */
  lemma RefusalIsFirst(node: Node)
    requires node.Branch? && DecodeWorld(node).Err?
    ensures exists resource :: FirstFault(node.children, RESOURCE_READER, resource, DecodeWorld(node).error)
              && (node.children[resource].Branch? ==>
                    exists field :: FirstFault(node.children[resource].children, FieldReader(resource), field,
                                               DecodeWorld(node).error))
  {
    ErrIsFirst(node.children, RESOURCE_READER);
    var resource :| FirstFault(node.children, RESOURCE_READER, resource, DecodeWorld(node).error);
    if node.children[resource].Branch? {
      ErrIsFirst(node.children[resource].children, FieldReader(resource));
    }
  }

  function Under<V, E>(rest: Result<map<Name, V>, E>, read: map<Name, V>): Result<map<Name, V>, E> {
    match rest
    case Err(e) => Err(e)
    case Ok(m) => Ok(m + read)
  }

  lemma UnderNothing<V, E>(rest: Result<map<Name, V>, E>)
    ensures Under(rest, map[]) == rest
  {
    if rest.Ok? { assert rest.value + map[] == rest.value; }
  }

  /** One more child read on the way through a list of distinct names. */
  lemma ChildrenStep<V, E>(names: seq<Name>, i: nat, children: map<Name, Node>, reader: (Name, Node) -> Result<V, E>, read: map<Name, V>)
    requires forall name :: name in names ==> name in children
    requires Ascending(names) && i < |names|
    requires forall name :: name in read <==> name in names[..i]
    ensures var step := reader(names[i], children[names[i]]);
            Under(Children(names[i..], children, reader), read) ==
              match step
              case Err(e) => Err(e)
              case Ok(v) => Under(Children(names[i + 1..], children, reader), read[names[i] := v])
    ensures forall name :: name in names[..i + 1] <==> name in names[..i] || name == names[i]
  {
    BeforeIrreflexive(names[i]);
    assert names[i..][1..] == names[i + 1..];
    var step := reader(names[i], children[names[i]]);
    var rest := Children(names[i + 1..], children, reader);
    if step.Ok? && rest.Ok? {
      assert rest.value[names[i] := step.value] + read == rest.value + read[names[i] := step.value];
    }
  }

  /** The loop over children in ascending order, coming to `Children`. */
  method ReadChildren<V, E>(children: map<Name, Node>, reader: (Name, Node) -> Result<V, E>)
    returns (r: Result<map<Name, V>, E>)
    ensures r == Children(Sorted(children.Keys), children, reader)
  {
    var names := Sorted(children.Keys);
    ghost var whole := Children(names, children, reader);
    var read: map<Name, V> := map[];
    var i := 0;
    assert names[0..] == names;
    UnderNothing(whole);
    while i < |names|
      invariant 0 <= i <= |names|
      invariant forall name :: name in read <==> name in names[..i]
      invariant Under(Children(names[i..], children, reader), read) == whole
    {
      assert names[i] in names;
      ChildrenStep(names, i, children, reader, read);
      var step := reader(names[i], children[names[i]]);
      if step.Err? {
        return Err(step.error);
      }
      read := read[names[i] := step.value];
      i := i + 1;
    }
    NothingUnder(names, children, reader, read);
    return Ok(read);
  }

  lemma NothingUnder<V, E>(names: seq<Name>, children: map<Name, Node>, reader: (Name, Node) -> Result<V, E>, read: map<Name, V>)
    ensures Under(Children(names[|names|..], children, reader), read) == Ok(read)
  {
    assert names[|names|..] == [];
    assert map[] + read == read;
  }

  /** The loops over resources and fields, coming to `DecodeWorld`. */
  method ReadWorld(node: Node) returns (r: Result<World, DecodeWorldError>)
    ensures r == DecodeWorld(node)
  {
    match node
    case Leaf(_) => return Err(NotAWorld);
    case Branch(resources) =>
      var read := ReadChildren(resources, RESOURCE_READER);
      return read;
  }
}
