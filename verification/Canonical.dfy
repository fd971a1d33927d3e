/** The canonical structural encoding: tagged trees of typed fields, written as varints and
    length frames, and the canonical sets built from them. */
module Canonical {
  import opened Ordering
  import opened Varint

  /** A built node.  The bytes and the flattened members that the program stores beside the
      tag are determined by the tree, so here they are functions of it. */
  datatype Node = Node(tag: nat, fields: seq<Field>)

  datatype Field =
    | Null
    | Child(node: Node)
    | Text(text: Bytes)
    | Blob(blob: Bytes)
    | Integer(digits: seq<digit>)
    | Enumeration(name: Bytes)
    | Set(members: seq<Node>)
    | Sequence(items: seq<Node>)

  const MARKER_NONE: byte := 0
  const MARKER_NODE: byte := 1
  const MARKER_TEXT: byte := 2
  const MARKER_BYTES: byte := 3
  const MARKER_INTEGER: byte := 4
  const MARKER_ENUM: byte := 5
  const MARKER_SET: byte := 6
  const MARKER_SEQUENCE: byte := 7

  // ----- The format

  function Frame(value: Bytes): Bytes
  {
    Leb(|value|) + value
  }

  function Encode(n: Node): Bytes
    decreases n, 1
  {
    Leb(n.tag) + EncodeFields(n.fields)
  }

  function EncodeFields(fs: seq<Field>): Bytes
    decreases fs, 0
  {
    if fs == [] then [] else EncodeField(fs[0]) + EncodeFields(fs[1..])
  }

  function EncodeField(f: Field): (r: Bytes)
    ensures r != []
    decreases f, 3
  {
    [Marker(f)] + Payload(f)
  }

  function Marker(f: Field): byte
  {
    match f
    case Null => MARKER_NONE
    case Child(_) => MARKER_NODE
    case Text(_) => MARKER_TEXT
    case Blob(_) => MARKER_BYTES
    case Integer(_) => MARKER_INTEGER
    case Enumeration(_) => MARKER_ENUM
    case Set(_) => MARKER_SET
    case Sequence(_) => MARKER_SEQUENCE
  }

  function Payload(f: Field): Bytes
    decreases f, 2
  {
    match f
    case Null => []
    case Child(node) => Frame(Encode(node))
    case Text(text) => Frame(text)
    case Blob(blob) => Frame(blob)
    case Integer(digits) => if digits == [] then [] else Leb(DecValue(digits))
    case Enumeration(name) => Frame(name)
    case Set(members) => Leb(|members|) + EncodeNodes(members, false)
    case Sequence(items) => Leb(|items|) + EncodeNodes(items, true)
  }

  /** Framed nodes one after the other, each behind its own node marker where asked. */
  function EncodeNodes(ns: seq<Node>, marked: bool): Bytes
    decreases ns, 0
  {
    if ns == [] then []
    else if marked then [MARKER_NODE] + Frame(Encode(ns[0])) + EncodeNodes(ns[1..], marked)
    else Frame(Encode(ns[0])) + EncodeNodes(ns[1..], marked)
  }

  /** The bytes of each kind of field: a marker from 0 to 7, and behind it a length and as many bytes, a
      number, or a count and as many nodes. */
  lemma FieldBytes(f: Field)
    ensures match f
      case Null => EncodeField(f) == [0]
      case Child(n) => EncodeField(f) == [1] + (Leb(|Encode(n)|) + Encode(n))
      case Text(text) => EncodeField(f) == [2] + (Leb(|text|) + text)
      case Blob(blob) => EncodeField(f) == [3] + (Leb(|blob|) + blob)
      case Integer(digits) => digits != [] ==> EncodeField(f) == [4] + Leb(DecValue(digits))
      case Enumeration(name) => EncodeField(f) == [5] + (Leb(|name|) + name)
      case Set(members) => EncodeField(f) == [6] + (Leb(|members|) + EncodeNodes(members, false))
      case Sequence(items) => EncodeField(f) == [7] + (Leb(|items|) + EncodeNodes(items, true))
  {
  }

  // ----- The encoder, appending to one output buffer

  method EncodeFrame(value: Bytes, output: Bytes) returns (result: Bytes)
    requires |value| < U64
    ensures result == output + Frame(value)
  {
    result := EncodeU64(|value|, output);
    result := result + value;
  }

  lemma {:induction false} NodesLength(ns: seq<Node>, marked: bool)
    ensures |EncodeNodes(ns, marked)| >= |ns|
  {
    if ns != [] { NodesLength(ns[1..], marked); }
  }

  method AppendNodes(nodes: seq<Node>, marked: bool, output: Bytes) returns (result: Bytes)
    requires |EncodeNodes(nodes, marked)| < U64
    ensures result == output + (Leb(|nodes|) + EncodeNodes(nodes, marked))
  {
    NodesLength(nodes, marked);
    result := EncodeU64(|nodes|, output);
    for i := 0 to |nodes|
      invariant |EncodeNodes(nodes[i..], marked)| < U64
      invariant result + EncodeNodes(nodes[i..], marked) == output + Leb(|nodes|) + EncodeNodes(nodes, marked)
    {
      NodesStep(result, nodes[i..], marked);
      assert nodes[i..][1..] == nodes[i + 1..];
      if marked {
        result := result + [MARKER_NODE];
      }
      result := EncodeFrame(Encode(nodes[i]), result);
    }
    assert result + EncodeNodes([], marked) == result;
    Concat(output, Leb(|nodes|), EncodeNodes(nodes, marked));
  }

  lemma NodesStep(before: Bytes, ns: seq<Node>, marked: bool)
    requires ns != []
    ensures before + EncodeNodes(ns, marked)
         == (if marked then before + [MARKER_NODE] else before) + Frame(Encode(ns[0])) + EncodeNodes(ns[1..], marked)
  {
    var node, rest := Frame(Encode(ns[0])), EncodeNodes(ns[1..], marked);
    if marked {
      Concat(before, [MARKER_NODE], node);
      Concat(before, [MARKER_NODE] + node, rest);
    } else {
      Concat(before, node, rest);
    }
  }

  method AppendField(field: Field, output: Bytes) returns (result: Bytes)
    requires |EncodeField(field)| < U64
    ensures result == output + EncodeField(field)
  {
    result := output + [Marker(field)];
    match field {
      case Null =>
      case Child(node) => result := EncodeFrame(Encode(node), result);
      case Text(text) => result := EncodeFrame(text, result);
      case Blob(blob) => result := EncodeFrame(blob, result);
      case Integer(digits) => result := EncodeDecimal(digits, result);
      case Enumeration(name) => result := EncodeFrame(name, result);
      case Set(members) => result := AppendNodes(members, false, result);
      case Sequence(items) => result := AppendNodes(items, true, result);
    }
    assert result == output + [Marker(field)] + Payload(field);
  }

  /** The bytes of a node, for any tree whose encoding fits the address space. */
  method Build(tag: nat, fields: seq<Field>) returns (encoded: Bytes)
    requires tag < U64 && |EncodeFields(fields)| < U64
    ensures encoded == Encode(Node(tag, fields))
  {
    encoded := EncodeU64(tag, []);
    for i := 0 to |fields|
      invariant |EncodeFields(fields[i..])| < U64
      invariant encoded + EncodeFields(fields[i..]) == Encode(Node(tag, fields))
    {
      assert fields[i..][1..] == fields[i + 1..];
      encoded := AppendField(fields[i], encoded);
    }
  }

  // ----- Unique decodability

  /** Every integer field has at least one digit. */
  ghost predicate WellFormed(n: Node)
    decreases n, 1
  {
    forall f | f in n.fields :: WellFormedField(f)
  }

  ghost predicate WellFormedField(f: Field)
    decreases f, 0
  {
    match f
    case Child(node) => WellFormed(node)
    case Integer(digits) => digits != []
    case Set(members) => forall m | m in members :: WellFormed(m)
    case Sequence(items) => forall m | m in items :: WellFormed(m)
    case _ => true
  }

  /** Structural identity: the same tree, with integers compared as numbers. */
  ghost predicate Same(a: Node, b: Node)
    decreases a, 1
  {
    a.tag == b.tag && SameFields(a.fields, b.fields)
  }

  ghost predicate SameFields(fs: seq<Field>, gs: seq<Field>)
    decreases fs, 0
  {
    |fs| == |gs| && (fs != [] ==> SameField(fs[0], gs[0]) && SameFields(fs[1..], gs[1..]))
  }

  ghost predicate SameField(f: Field, g: Field)
    decreases f, 2
  {
    match f
    case Child(node) => g.Child? && Same(node, g.node)
    case Integer(digits) => g.Integer? && DecValue(digits) == DecValue(g.digits)
    case Set(members) => g.Set? && SameNodes(members, g.members)
    case Sequence(items) => g.Sequence? && SameNodes(items, g.items)
    case _ => f == g
  }

  ghost predicate SameNodes(ns: seq<Node>, ms: seq<Node>)
    decreases ns, 0
  {
    |ns| == |ms| && (ns != [] ==> Same(ns[0], ms[0]) && SameNodes(ns[1..], ms[1..]))
  }

  lemma FramePrefixFree(a: Bytes, b: Bytes, x: Bytes, y: Bytes)
    requires Frame(a) + x == Frame(b) + y
    ensures a == b && x == y
  {
    Concat(Leb(|a|), a, x);
    Concat(Leb(|b|), b, y);
    LebPrefixFree(|a|, |b|, a + x, b + y);
    assert (a + x)[..|a|] == a && (b + y)[..|b|] == b;
    assert (a + x)[|a|..] == x && (b + y)[|b|..] == y;
  }

  /** Equal bytes mean the same tree, for all trees. */
  lemma {:induction false} EncodeInjective(a: Node, b: Node)
    requires WellFormed(a) && WellFormed(b) && Encode(a) == Encode(b)
    ensures Same(a, b)
    decreases a, 1
  {
    LebPrefixFree(a.tag, b.tag, EncodeFields(a.fields), EncodeFields(b.fields));
    FieldsInjective(a.fields, b.fields);
  }

  lemma {:induction false} FieldsInjective(fs: seq<Field>, gs: seq<Field>)
    requires forall f | f in fs :: WellFormedField(f)
    requires forall g | g in gs :: WellFormedField(g)
    requires EncodeFields(fs) == EncodeFields(gs)
    ensures SameFields(fs, gs)
    decreases fs, 0
  {
    if fs != [] && gs != [] {
      FieldPrefixFree(fs[0], gs[0], EncodeFields(fs[1..]), EncodeFields(gs[1..]));
      FieldsInjective(fs[1..], gs[1..]);
    }
  }

  lemma {:induction false} FieldPrefixFree(f: Field, g: Field, x: Bytes, y: Bytes)
    requires WellFormedField(f) && WellFormedField(g)
    requires EncodeField(f) + x == EncodeField(g) + y
    ensures SameField(f, g) && x == y
    decreases f, 3
  {
    Concat([Marker(f)], Payload(f), x);
    Concat([Marker(g)], Payload(g), y);
    assert ([Marker(f)] + (Payload(f) + x))[0] == ([Marker(g)] + (Payload(g) + y))[0];
    assert ([Marker(f)] + (Payload(f) + x))[1..] == ([Marker(g)] + (Payload(g) + y))[1..];
    PayloadPrefixFree(f, g, x, y);
  }

  lemma {:induction false} PayloadPrefixFree(f: Field, g: Field, x: Bytes, y: Bytes)
    requires WellFormedField(f) && WellFormedField(g)
    requires Marker(f) == Marker(g) && Payload(f) + x == Payload(g) + y
    ensures SameField(f, g) && x == y
    decreases f, 2
  {
    match f {
      case Null =>
        assert [] + x == x && [] + y == y;
      case Child(node) =>
        FramePrefixFree(Encode(node), Encode(g.node), x, y);
        EncodeInjective(node, g.node);
      case Text(text) =>
        FramePrefixFree(text, g.text, x, y);
      case Blob(blob) =>
        FramePrefixFree(blob, g.blob, x, y);
      case Integer(digits) =>
        LebPrefixFree(DecValue(digits), DecValue(g.digits), x, y);
      case Enumeration(name) =>
        FramePrefixFree(name, g.name, x, y);
      case Set(members) =>
        CountedPrefixFree(members, g.members, false, x, y);
      case Sequence(items) =>
        CountedPrefixFree(items, g.items, true, x, y);
    }
  }

  lemma {:induction false} CountedPrefixFree(ns: seq<Node>, ms: seq<Node>, marked: bool, x: Bytes, y: Bytes)
    requires forall n | n in ns :: WellFormed(n)
    requires forall m | m in ms :: WellFormed(m)
    requires Leb(|ns|) + EncodeNodes(ns, marked) + x == Leb(|ms|) + EncodeNodes(ms, marked) + y
    ensures SameNodes(ns, ms) && x == y
    decreases ns, 1
  {
    Concat(Leb(|ns|), EncodeNodes(ns, marked), x);
    Concat(Leb(|ms|), EncodeNodes(ms, marked), y);
    LebPrefixFree(|ns|, |ms|, EncodeNodes(ns, marked) + x, EncodeNodes(ms, marked) + y);
    NodesPrefixFree(ns, ms, marked, x, y);
  }

  lemma {:induction false} NodesPrefixFree(ns: seq<Node>, ms: seq<Node>, marked: bool, x: Bytes, y: Bytes)
    requires |ns| == |ms|
    requires forall n | n in ns :: WellFormed(n)
    requires forall m | m in ms :: WellFormed(m)
    requires EncodeNodes(ns, marked) + x == EncodeNodes(ms, marked) + y
    ensures SameNodes(ns, ms) && x == y
    decreases ns, 0
  {
    if ns == [] {
      assert [] + x == x && [] + y == y;
    } else {
      var u, v := EncodeNodes(ns[1..], marked) + x, EncodeNodes(ms[1..], marked) + y;
      NodesUnfold(ns, marked, x);
      NodesUnfold(ms, marked, y);
      FramePrefixFree(Encode(ns[0]), Encode(ms[0]), u, v);
      EncodeInjective(ns[0], ms[0]);
      NodesPrefixFree(ns[1..], ms[1..], marked, x, y);
    }
  }

  lemma NodesUnfold(ns: seq<Node>, marked: bool, x: Bytes)
    requires ns != []
    ensures var s, t := EncodeNodes(ns, marked) + x, Frame(Encode(ns[0])) + (EncodeNodes(ns[1..], marked) + x);
      if marked then s != [] && s[1..] == t else s == t
  {
    Concat(Frame(Encode(ns[0])), EncodeNodes(ns[1..], marked), x);
    if marked {
      Concat([MARKER_NODE], Frame(Encode(ns[0])), EncodeNodes(ns[1..], marked));
    }
  }

  lemma {:induction false} SameEncodesEqual(a: Node, b: Node)
    requires WellFormed(a) && WellFormed(b) && Same(a, b)
    ensures Encode(a) == Encode(b)
    decreases a, 1
  {
    SameFieldsEncodeEqual(a.fields, b.fields);
  }

  lemma {:induction false} SameFieldsEncodeEqual(fs: seq<Field>, gs: seq<Field>)
    requires forall f | f in fs :: WellFormedField(f)
    requires forall g | g in gs :: WellFormedField(g)
    requires SameFields(fs, gs)
    ensures EncodeFields(fs) == EncodeFields(gs)
    decreases fs, 0
  {
    if fs != [] {
      SameFieldEncodesEqual(fs[0], gs[0]);
      SameFieldsEncodeEqual(fs[1..], gs[1..]);
    }
  }

  lemma {:induction false} SameFieldEncodesEqual(f: Field, g: Field)
    requires WellFormedField(f) && WellFormedField(g) && SameField(f, g)
    ensures EncodeField(f) == EncodeField(g)
    decreases f, 2
  {
    match f {
      case Child(node) => SameEncodesEqual(node, g.node);
      case Set(members) => SameNodesEncodeEqual(members, g.members, false);
      case Sequence(items) => SameNodesEncodeEqual(items, g.items, true);
      case _ =>
    }
  }

  lemma {:induction false} SameNodesEncodeEqual(ns: seq<Node>, ms: seq<Node>, marked: bool)
    requires forall n | n in ns :: WellFormed(n)
    requires forall m | m in ms :: WellFormed(m)
    requires SameNodes(ns, ms)
    ensures EncodeNodes(ns, marked) == EncodeNodes(ms, marked)
    decreases ns, 0
  {
    if ns != [] {
      SameEncodesEqual(ns[0], ms[0]);
      SameNodesEncodeEqual(ns[1..], ms[1..], marked);
    }
  }

  /** So comparing bytes is comparing structure. */
  lemma EncodeDecides(a: Node, b: Node)
    requires WellFormed(a) && WellFormed(b)
    ensures Encode(a) == Encode(b) <==> Same(a, b)
  {
    if Encode(a) == Encode(b) { EncodeInjective(a, b); }
    if Same(a, b) { SameEncodesEqual(a, b); }
  }

  // ----- Which fields delimit themselves

  /** The bytes of both fields start the same byte string. */
  ghost predicate Overlap(f: Field, x: Bytes, g: Field, y: Bytes)
  {
    EncodeField(f) + x == EncodeField(g) + y
  }

  lemma {:induction false} NodesDelimited(ns: seq<Node>, ms: seq<Node>, marked: bool, x: Bytes, y: Bytes)
    requires |ns| == |ms| && EncodeNodes(ns, marked) + x == EncodeNodes(ms, marked) + y
    ensures EncodeNodes(ns, marked) == EncodeNodes(ms, marked) && x == y
    decreases |ns|
  {
    if ns == [] {
      assert [] + x == x && [] + y == y;
    } else {
      NodesUnfold(ns, marked, x);
      NodesUnfold(ms, marked, y);
      FramePrefixFree(Encode(ns[0]), Encode(ms[0]), EncodeNodes(ns[1..], marked) + x, EncodeNodes(ms[1..], marked) + y);
      NodesDelimited(ns[1..], ms[1..], marked, x, y);
    }
  }

  lemma CountDelimited(ns: seq<Node>, ms: seq<Node>, marked: bool, x: Bytes, y: Bytes)
    requires Leb(|ns|) + EncodeNodes(ns, marked) + x == Leb(|ms|) + EncodeNodes(ms, marked) + y
    ensures Leb(|ns|) + EncodeNodes(ns, marked) == Leb(|ms|) + EncodeNodes(ms, marked) && x == y
  {
    Concat(Leb(|ns|), EncodeNodes(ns, marked), x);
    Concat(Leb(|ms|), EncodeNodes(ms, marked), y);
    LebPrefixFree(|ns|, |ms|, EncodeNodes(ns, marked) + x, EncodeNodes(ms, marked) + y);
    NodesDelimited(ns, ms, marked, x, y);
  }

  lemma PayloadDelimited(f: Field, g: Field, x: Bytes, y: Bytes)
    requires f != Integer([]) && g != Integer([])
    requires Marker(f) == Marker(g) && Payload(f) + x == Payload(g) + y
    ensures Payload(f) == Payload(g) && x == y
  {
    match f {
      case Null =>
        assert [] + x == x && [] + y == y;
      case Child(node) => FramePrefixFree(Encode(node), Encode(g.node), x, y);
      case Text(text) => FramePrefixFree(text, g.text, x, y);
      case Blob(blob) => FramePrefixFree(blob, g.blob, x, y);
      case Integer(digits) => LebPrefixFree(DecValue(digits), DecValue(g.digits), x, y);
      case Enumeration(name) => FramePrefixFree(name, g.name, x, y);
      case Set(members) => CountDelimited(members, g.members, false, x, y);
      case Sequence(items) => CountDelimited(items, g.items, true, x, y);
    }
  }

  lemma FieldDelimited(f: Field, g: Field, x: Bytes, y: Bytes)
    requires f != Integer([]) && g != Integer([]) && Overlap(f, x, g, y)
    ensures EncodeField(f) == EncodeField(g) && x == y
  {
    Concat([Marker(f)], Payload(f), x);
    Concat([Marker(g)], Payload(g), y);
    assert ([Marker(f)] + (Payload(f) + x))[0] == ([Marker(g)] + (Payload(g) + y))[0];
    assert ([Marker(f)] + (Payload(f) + x))[1..] == ([Marker(g)] + (Payload(g) + y))[1..];
    PayloadDelimited(f, g, x, y);
  }

  lemma EmptyIntegerOverlaps()
    ensures Overlap(Integer([]), [0], Integer([0]), []) && EncodeField(Integer([])) != EncodeField(Integer([0]))
  {
    assert Payload(Integer([0])) == [0];
    assert EncodeField(Integer([])) == [4] && EncodeField(Integer([0])) == [4, 0];
  }

  /** A field tells where it ends exactly when it is not an empty integer: then, and only then, no
      field with a digit in its integer overlaps it without having the very same bytes. */
  lemma DelimitedIffDigits(f: Field)
    ensures f != Integer([]) <==>
            forall g, x, y | g != Integer([]) && Overlap(f, x, g, y) :: EncodeField(f) == EncodeField(g) && x == y
  {
    if f != Integer([]) {
      forall g, x, y | g != Integer([]) && Overlap(f, x, g, y)
        ensures EncodeField(f) == EncodeField(g) && x == y
      {
        FieldDelimited(f, g, x, y);
      }
    } else {
      EmptyIntegerOverlaps();
    }
  }

  /** The digit string of an integer field must be nonempty: an empty one is swallowed by
      whatever follows it. */
  lemma EmptyIntegerIsAmbiguous()
    ensures var a, b := Node(38, [Integer([]), Null]), Node(38, [Integer([0])]);
      Encode(a) == Encode(b) && !Same(a, b)
  {
    var a, b := Node(38, [Integer([]), Null]), Node(38, [Integer([0])]);
    assert a.fields[1..] == [Null] && b.fields[1..] == [] && [Null][1..] == [];
    assert EncodeFields([Null]) == [0];
    assert EncodeFields(a.fields) == [4, 0];
    assert EncodeFields(b.fields) == [4, 0];
  }

  // ----- Canonical sets

  function NodeKey(n: Node): seq<int> { Encode(n) }

  predicate Flattens(tag: nat) { tag in {21, 22, 30, 31} }

  /** The members a node keeps for merging into an enclosing set. */
  function FlattenedMembers(n: Node): Option<seq<Node>>
  {
    if Flattens(n.tag) && n.fields != [] && n.fields[0].Set? then Some(n.fields[0].members) else None
  }

  function Flatten(values: seq<Node>, flattenTag: Option<nat>): seq<Node>
  {
    if values == [] then []
    else Flatten(values[..|values| - 1], flattenTag) + Spread(values[|values| - 1], flattenTag)
  }

  function Spread(n: Node, flattenTag: Option<nat>): seq<Node>
  {
    if flattenTag == Some(n.tag) && FlattenedMembers(n).Some? then FlattenedMembers(n).value else [n]
  }

  /** A conjunction or disjunction of that tag with its members in its first field. */
  predicate IsMerged(v: Node, flattenTag: Option<nat>)
  {
    && flattenTag == Some(v.tag) && (v.tag == 21 || v.tag == 22 || v.tag == 30 || v.tag == 31)
    && |v.fields| > 0 && v.fields[0].Set?
  }

  /** It is a value that is not of the flattened kind, or a member of one that is. */
  ghost predicate Remains(values: seq<Node>, flattenTag: Option<nat>, m: Node)
  {
    || (m in values && !IsMerged(m, flattenTag))
    || exists v :: v in values && IsMerged(v, flattenTag) && m in v.fields[0].members
  }

  lemma RemainsOne(v: Node, flattenTag: Option<nat>, m: Node)
    ensures m in Spread(v, flattenTag)
       <==> if IsMerged(v, flattenTag) then m in v.fields[0].members else m == v
  {
  }

  lemma RemainsNext(values: seq<Node>, v: Node, flattenTag: Option<nat>, m: Node)
    ensures Remains(values + [v], flattenTag, m) <==>
            Remains(values, flattenTag, m) || (if IsMerged(v, flattenTag) then m in v.fields[0].members else m == v)
  {
    var more := values + [v];
    assert v in more && forall x :: x in more <==> x in values || x == v;
  }

  /** Every value stays unless it is of the flattened kind; of those that are, the members stay. */
  lemma {:induction false} FlattenKeeps(values: seq<Node>, flattenTag: Option<nat>, m: Node)
    ensures m in Flatten(values, flattenTag) <==> Remains(values, flattenTag, m)
    decreases |values|
  {
    if values != [] {
      var init, v := values[..|values| - 1], values[|values| - 1];
      FlattenKeeps(init, flattenTag, m);
      assert values == init + [v];
      RemainsNext(init, v, flattenTag, m);
      RemainsOne(v, flattenTag, m);
    }
  }

  lemma FlattenSame(values: seq<Node>, flattenTag: Option<nat>)
    requires forall v | v in values :: Some(v.tag) != flattenTag
    ensures Encodings(Flatten(values, flattenTag)) == Encodings(values)
    ensures forall m :: m in Flatten(values, flattenTag) <==> m in values
  {
    forall m
      ensures m in Flatten(values, flattenTag) <==> m in values
    {
      FlattenKeeps(values, flattenTag, m);
    }
  }

  datatype SetError = TooFewMembers

  ghost function Encodings(ns: seq<Node>): set<seq<int>>
  {
    set n | n in ns :: NodeKey(n)
  }

  /** Exactly the encodings of the flattened members, each once, in strictly ascending order. */
  ghost predicate IsCanonicalSet(result: seq<Node>, flat: seq<Node>)
  {
    && Ascending(result, NodeKey)
    && (forall m | m in result :: m in flat)
    && Encodings(result) == Encodings(flat)
  }

  method CanonicalSet(values: seq<Node>, minimum: nat, flattenTag: Option<nat>)
    returns (result: Result<seq<Node>, SetError>)
    ensures result.Ok? <==> |Encodings(Flatten(values, flattenTag))| >= minimum
    ensures result.Ok? ==> IsCanonicalSet(result.value, Flatten(values, flattenTag))
    ensures (forall v | v in values :: Some(v.tag) != flattenTag) ==>
              && (result.Ok? <==> |Encodings(values)| >= minimum)
              && (result.Ok? ==> IsCanonicalSet(result.value, values))
  {
    var flattened: seq<Node> := [];
    for i := 0 to |values|
      invariant flattened == Flatten(values[..i], flattenTag)
    {
      assert values[..i + 1][..i] == values[..i];
      if flattenTag == Some(values[i].tag) {
        var members := FlattenedMembers(values[i]);
        if members.Some? {
          flattened := flattened + members.value;
          continue;
        }
      }
      flattened := flattened + [values[i]];
    }
    assert values[..|values|] == values;
    var sorted := Sort(flattened, NodeKey);
    PermutationElements(sorted, flattened);
    var distinct := DedupBy(sorted, NodeKey);
    DedupEncodings(sorted);
    assert Encodings(sorted) == Encodings(flattened);
    DistinctCount(distinct);
    if forall v | v in values :: Some(v.tag) != flattenTag {
      FlattenSame(values, flattenTag);
    }
    if |distinct| < minimum {
      return Err(TooFewMembers);
    }
    return Ok(distinct);
  }

  lemma DedupEncodings(sorted: seq<Node>)
    requires SortedBy(sorted, NodeKey)
    ensures IsCanonicalSet(DedupBy(sorted, NodeKey), sorted)
  {
    DedupAscending(sorted, NodeKey);
    DedupKeys(sorted, NodeKey);
    DedupMembers(sorted, NodeKey);
    var distinct := DedupBy(sorted, NodeKey);
    forall n | n in sorted
      ensures NodeKey(n) in Encodings(distinct)
    {
      var i :| 0 <= i < |sorted| && sorted[i] == n;
      assert HasKey(distinct, NodeKey, NodeKey(sorted[i]));
      var j :| 0 <= j < |distinct| && NodeKey(distinct[j]) == NodeKey(n);
      assert distinct[j] in distinct;
    }
  }

  lemma DistinctCount(ns: seq<Node>)
    requires Ascending(ns, NodeKey)
    ensures |Encodings(ns)| == |ns|
  {
    AscendingDistinct(ns, NodeKey);
    DistinctCardinality(Keys(ns));
    forall k
      ensures k in Encodings(ns) <==> k in Elements(Keys(ns))
    {
      KeysMembers(ns, k);
    }
    assert Encodings(ns) == Elements(Keys(ns));
  }

  /** The published bytes depend only on which encodings occur, never on order or repetition. */
  lemma CanonicalSetUnique(r: seq<Node>, s: seq<Node>, flat: seq<Node>, other: seq<Node>)
    requires IsCanonicalSet(r, flat) && IsCanonicalSet(s, other)
    requires Encodings(flat) == Encodings(other)
    ensures |r| == |s| && forall i | 0 <= i < |r| :: Encode(r[i]) == Encode(s[i])
  {
    var a, b := Keys(r), Keys(s);
    forall k
      ensures k in a <==> k in b
    {
      KeysMembers(r, k);
      KeysMembers(s, k);
    }
    AscendingUnique(a, b, Identity);
    forall i | 0 <= i < |r|
      ensures Encode(r[i]) == Encode(s[i])
    {
      assert a[i] == b[i];
    }
  }

  ghost function Keys(ns: seq<Node>): (ks: seq<seq<int>>)
    ensures |ks| == |ns| && forall i | 0 <= i < |ks| :: ks[i] == NodeKey(ns[i])
  {
    seq(|ns|, i requires 0 <= i < |ns| => NodeKey(ns[i]))
  }

  lemma KeysMembers(ns: seq<Node>, k: seq<int>)
    ensures k in Keys(ns) <==> k in Encodings(ns)
  {
    if k in Keys(ns) {
      var i :| 0 <= i < |ns| && Keys(ns)[i] == k;
      assert ns[i] in ns;
    }
    if k in Encodings(ns) {
      var n :| n in ns && NodeKey(n) == k;
      var i :| 0 <= i < |ns| && ns[i] == n;
      assert Keys(ns)[i] == k;
    }
  }

  // ----- What flattening means

  /** A valuation of encoded nodes under which conjunctions (tags 21 and 30) and disjunctions (tags
      22 and 31) of sets are what they are called. */
  ghost predicate IsValuation(holds: Node -> bool)
  {
    && (forall a, b | Encode(a) == Encode(b) :: holds(a) == holds(b))
    && (forall n: Node | (n.tag == 21 || n.tag == 30) && |n.fields| > 0 && n.fields[0].Set? ::
          holds(n) <==> forall m | m in n.fields[0].members :: holds(m))
    && (forall n: Node | (n.tag == 22 || n.tag == 31) && |n.fields| > 0 && n.fields[0].Set? ::
          holds(n) <==> exists m | m in n.fields[0].members :: holds(m))
  }

  ghost predicate AllHold(ns: seq<Node>, holds: Node -> bool) { forall n | n in ns :: holds(n) }

  ghost predicate SomeHolds(ns: seq<Node>, holds: Node -> bool) { exists n | n in ns :: holds(n) }

  lemma FewerEncodingsHold(ns: seq<Node>, ms: seq<Node>, holds: Node -> bool)
    requires IsValuation(holds) && Encodings(ns) <= Encodings(ms)
    ensures AllHold(ms, holds) ==> AllHold(ns, holds)
    ensures SomeHolds(ns, holds) ==> SomeHolds(ms, holds)
  {
    forall n | n in ns
      ensures exists m :: m in ms && holds(m) == holds(n)
    {
      assert NodeKey(n) in Encodings(ms);
      var m :| m in ms && NodeKey(m) == NodeKey(n);
    }
  }

  lemma FlattenedConjunction(values: seq<Node>, tag: nat, holds: Node -> bool)
    requires IsValuation(holds) && (tag == 21 || tag == 30)
    ensures AllHold(Flatten(values, Some(tag)), holds) <==> AllHold(values, holds)
  {
    forall m
      ensures m in Flatten(values, Some(tag)) <==> Remains(values, Some(tag), m)
    {
      FlattenKeeps(values, Some(tag), m);
    }
    if AllHold(Flatten(values, Some(tag)), holds) {
      forall v | v in values
        ensures holds(v)
      {
        assert v in values && !IsMerged(v, Some(tag)) ==> v in Flatten(values, Some(tag));
      }
    }
  }

  lemma FlattenedDisjunction(values: seq<Node>, tag: nat, holds: Node -> bool)
    requires IsValuation(holds) && (tag == 22 || tag == 31)
    ensures SomeHolds(Flatten(values, Some(tag)), holds) <==> SomeHolds(values, holds)
  {
    forall m
      ensures m in Flatten(values, Some(tag)) <==> Remains(values, Some(tag), m)
    {
      FlattenKeeps(values, Some(tag), m);
    }
    if v :| v in values && holds(v) {
      if IsMerged(v, Some(tag)) {
        var m :| m in v.fields[0].members && holds(m);
        assert m in Flatten(values, Some(tag));
      } else {
        assert v in Flatten(values, Some(tag));
      }
    }
  }

  /** The canonical set of a conjunction means what its values mean together, and that of a
      disjunction what one of them means, under every valuation. */
  lemma CanonicalSetMeans(result: seq<Node>, values: seq<Node>, tag: nat, holds: Node -> bool)
    requires IsCanonicalSet(result, Flatten(values, Some(tag))) && IsValuation(holds)
    ensures tag == 21 || tag == 30 ==> (AllHold(result, holds) <==> AllHold(values, holds))
    ensures tag == 22 || tag == 31 ==> (SomeHolds(result, holds) <==> SomeHolds(values, holds))
  {
    FewerEncodingsHold(result, Flatten(values, Some(tag)), holds);
    FewerEncodingsHold(Flatten(values, Some(tag)), result, holds);
    if tag == 21 || tag == 30 {
      FlattenedConjunction(values, tag, holds);
    }
    if tag == 22 || tag == 31 {
      FlattenedDisjunction(values, tag, holds);
    }
  }

  // ----- Nested nodes

  /** The node leaves one of the tag behind: it was not built from a set, or has such a member. */
  ghost predicate LeavesNested(n: Node, tag: nat)
  {
    n.tag == tag && match FlattenedMembers(n)
                    case None => true
                    case Some(members) => exists m :: m in members && m.tag == tag
  }

  lemma {:induction false} FlattenNested(values: seq<Node>, tag: nat)
    ensures (exists n :: n in Flatten(values, Some(tag)) && n.tag == tag)
       <==> (exists v :: v in values && LeavesNested(v, tag))
  {
    if values != [] {
      var init, v := values[..|values| - 1], values[|values| - 1];
      FlattenNested(init, tag);
      assert values == init + [v];
      SpreadNested(v, tag);
      var front, back := Flatten(init, Some(tag)), Spread(v, Some(tag));
      assert forall n :: n in front + back <==> n in front || n in back;
    }
  }

  lemma SpreadNested(v: Node, tag: nat)
    ensures (exists n :: n in Spread(v, Some(tag)) && n.tag == tag) <==> LeavesNested(v, tag)
  {
    if v.tag == tag && FlattenedMembers(v).None? { assert v in Spread(v, Some(tag)); }
  }

  /** The nesting criterion for a whole canonical set. */
  lemma CanonicalSetNested(result: seq<Node>, values: seq<Node>, tag: nat)
    requires IsCanonicalSet(result, Flatten(values, Some(tag)))
    ensures (exists n :: n in result && n.tag == tag) <==> (exists v :: v in values && LeavesNested(v, tag))
  {
    var flat := Flatten(values, Some(tag));
    FlattenNested(values, tag);
    if n :| n in flat && n.tag == tag {
      assert NodeKey(n) in Encodings(result);
      var m :| m in result && NodeKey(m) == NodeKey(n);
      LebPrefixFree(n.tag, m.tag, EncodeFields(n.fields), EncodeFields(m.fields));
    }
  }

  lemma TagOrder(m: Node, n: Node)
    requires m.tag < n.tag < 128
    ensures LexLess(NodeKey(m), NodeKey(n))
  {
    assert Encode(m)[0] == m.tag && Encode(n)[0] == n.tag;
  }

  lemma PairIsCanonical(a: Node, b: Node, flat: seq<Node>)
    requires LexLess(NodeKey(a), NodeKey(b)) && flat == [a, b]
    ensures IsCanonicalSet([a, b], flat)
  {
  }

  /** Sets that keep a nested node: flattening a conjunction of any `c` and a conjunction of any two
      different members leaves the inner conjunction in place. */
  lemma NestedSetRemains(a: Node, b: Node, c: Node)
    requires LexLess(NodeKey(a), NodeKey(b)) && c.tag < 30
    ensures var inner := Node(30, [Set([a, b])]);
      && IsCanonicalSet([a, b], [a, b])
      && IsCanonicalSet([c, inner], Flatten([Node(30, [Set([c, inner])])], Some(30)))
  {
    var inner := Node(30, [Set([a, b])]);
    var outer := Node(30, [Set([c, inner])]);
    assert [outer][..0] == [] && Flatten([outer], Some(30)) == [] + Spread(outer, Some(30)) == [c, inner];
    PairIsCanonical(a, b, [a, b]);
    TagOrder(c, inner);
    PairIsCanonical(c, inner, Flatten([outer], Some(30)));
  }

  // ----- Nodes built from canonical sets

  /** The node that stands for a canonical set: its only member, or a node of the tag. */
  function Combined(tag: nat, members: seq<Node>): Node
  {
    if |members| == 1 then members[0] else Node(tag, [Set(members)])
  }

  /** Wherever sets are flattened, no member has the tag of its set. */
  ghost predicate Tidy(n: Node)
  {
    Flattens(n.tag) ==>
      n.fields != [] && n.fields[0].Set? && forall m | m in n.fields[0].members :: m.tag != n.tag && Tidy(m)
  }

  lemma TidyLeavesNone(n: Node, tag: nat)
    requires Tidy(n) && Flattens(tag)
    ensures !LeavesNested(n, tag)
  {
  }

  lemma {:induction false} FlattenTidy(values: seq<Node>, tag: nat, m: Node)
    requires (forall v | v in values :: Tidy(v)) && m in Flatten(values, Some(tag))
    ensures Tidy(m)
    decreases |values|
  {
    var init, v := values[..|values| - 1], values[|values| - 1];
    if m in Flatten(init, Some(tag)) {
      FlattenTidy(init, tag, m);
    } else {
      assert m in Spread(v, Some(tag)) && v in values;
    }
  }

  /** Flattening works for good: what is combined from tidy nodes is tidy again, so that nodes built
      in this way from the ground up never nest. */
  lemma CombinedTidy(result: seq<Node>, values: seq<Node>, tag: nat)
    requires IsCanonicalSet(result, Flatten(values, Some(tag))) && Flattens(tag)
    requires forall v | v in values :: Tidy(v)
    ensures Tidy(Combined(tag, result))
  {
    forall v | v in values
      ensures !LeavesNested(v, tag)
    {
      TidyLeavesNone(v, tag);
    }
    CanonicalSetNested(result, values, tag);
    forall m | m in result
      ensures m.tag != tag && Tidy(m)
    {
      FlattenTidy(values, tag, m);
    }
  }
}
