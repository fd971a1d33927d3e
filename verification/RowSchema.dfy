/** The fields a canonical row of each tag has, and which rows the annotation reader therefore
    strips. */
module RowSchema {
  import opened Ordering
  import opened Canonical
  import opened AnnotationStripping
  import opened LogicalFingerprint

  // ----- The two tables

  /** What a field of a row may hold. */
  datatype Kind = Texts | OptionalText | Blobs | Integers | Names | Nodes | Sets | Sequences

  function FieldCount(tag: nat): Option<nat>
  {
    if tag in {1, 10, 11, 21, 22, 23, 24, 30, 31, 32, 33, 37, 140} then Some(1)
    else if tag in {2, 3, 20, 25, 34, 35, 36, 41, 42, 43} then Some(2)
    else if tag in {4, 5, 38, 39, 40, 44, 45, 46} then Some(3)
    else if tag in {60, 62, 63, 71, 72, 76, 77, 78, 79, 80, 81, 82, 91, 92, 95, 110, 111} then Some(2)
    else if tag in {61, 64, 70, 73, 74, 75, 90, 93, 94, 100, 112, 121, 122, 123} then Some(3)
    else if tag in {101, 113, 114, 115, 116, 120} then Some(4)
    else if tag in {141, 142, 145, 146, 147} then Some(2)
    else if tag in {143, 144, 148} then Some(3)
    else None
  }

  /** The kind of a field of an entity, a literal, an annotation, a range or a class expression. */
  function TermRule(tag: nat, index: nat): Option<Kind>
  {
    match (tag, index)
    case (1, 0) => Some(Texts)
    case (2, 0) => Some(Names)
    case (2, 1) => Some(Nodes)
    case (3, _) => if index < 2 then Some(Blobs) else None
    case (4, 0) => Some(Texts)
    case (4, 1) => Some(Nodes)
    case (4, 2) => Some(OptionalText)
    case (5, _) => if index < 2 then Some(Nodes) else if index == 2 then Some(Sets) else None
    case (10, 0) => Some(Nodes)
    case (11, 0) => Some(Sequences)
    case (20, _) => if index < 2 then Some(Nodes) else None
    case (23, 0) => Some(Nodes)
    case (25, 0) => Some(Nodes)
    case (25, 1) => Some(Sets)
    case (32, 0) => Some(Nodes)
    case (37, 0) => Some(Nodes)
    case (43, _) => if index < 2 then Some(Nodes) else None
    case _ =>
      if tag in {21, 22, 24, 30, 31, 33} then (if index == 0 then Some(Sets) else None)
      else if tag in {34, 35, 36} then (if index < 2 then Some(Nodes) else None)
      else if tag in {41, 42} then (if index == 0 then Some(Sequences) else if index == 1 then Some(Nodes) else None)
      else if tag in {38, 39, 40, 44, 45, 46}
      then (if index == 0 then Some(Integers) else if index < 3 then Some(Nodes) else None)
      else None
  }

  /** The kind of a field of an axiom or a rule. */
  function RootRule(tag: nat, index: nat): Option<Kind>
  {
    if tag in {60, 76, 77, 78, 79, 80, 81, 82, 95}
    then (if index == 0 then Some(Nodes) else if index == 1 then Some(Sets) else None)
    else if tag in {62, 63, 71, 72, 91, 92, 110, 111} then (if index < 2 then Some(Sets) else None)
    else if tag in {61, 70, 73, 74, 75, 90, 93, 94, 100, 112, 121, 122, 123}
    then (if index < 2 then Some(Nodes) else if index == 2 then Some(Sets) else None)
    else if tag == 64 then (if index == 0 then Some(Nodes) else if index < 3 then Some(Sets) else None)
    else if tag == 101 then (if index == 0 then Some(Nodes) else if index < 4 then Some(Sets) else None)
    else if tag in {113, 114, 115, 116, 120}
    then (if index < 3 then Some(Nodes) else if index == 3 then Some(Sets) else None)
    else if tag == 140 then (if index == 0 then Some(Nodes) else None)
    else if tag in {141, 142, 146, 147} then (if index < 2 then Some(Nodes) else None)
    else if tag in {143, 144} then (if index < 3 then Some(Nodes) else None)
    else if tag == 145 then (if index == 0 then Some(Nodes) else if index == 1 then Some(Sequences) else None)
    else if tag == 148 then (if index < 3 then Some(Sets) else None)
    else None
  }

  function FieldRule(tag: nat, index: nat): Option<Kind>
  {
    if tag < 60 then TermRule(tag, index) else RootRule(tag, index)
  }

  /** Every field that is counted has a rule, and no other. */
  lemma RulesComplete(tag: nat, index: nat)
    ensures FieldRule(tag, index).Some? <==> FieldCount(tag).Some? && index < FieldCount(tag).value
  {
  }

  predicate Fits(f: Field, kind: Kind)
  {
    match kind
    case Texts => f.Text?
    case OptionalText => f.Text? || f.Null?
    case Blobs => f.Blob?
    case Integers => f.Integer?
    case Names => f.Enumeration?
    case Nodes => f.Child?
    case Sets => f.Set?
    case Sequences => f.Sequence?
  }

  /** The node has the fields of its tag, each of its kind. */
  predicate Conforms(n: Node)
  {
    && FieldCount(n.tag) == Some(|n.fields|)
    && forall i | 0 <= i < |n.fields| :: FieldRule(n.tag, i).Some? && Fits(n.fields[i], FieldRule(n.tag, i).value)
  }

  // ----- Which rows are stripped

  /** The tags whose last field is a set: annotations, enumerations and connectives, the facets of
      a datatype, every axiom, and rules. */
  predicate EndsInSet(tag: nat)
  {
    tag in {5, 21, 22, 24, 25, 30, 31, 33, 148} || (60 <= tag <= 123 && FieldCount(tag).Some?)
  }

  lemma LastRule(tag: nat)
    requires FieldCount(tag).Some?
    ensures FieldCount(tag).value > 0
    ensures FieldRule(tag, FieldCount(tag).value - 1) == Some(Sets) <==> EndsInSet(tag)
  {
  }

  /** No row has both an integer and a set at its end. */
  lemma NoIntegerBeforeSet(tag: nat, index: nat)
    requires EndsInSet(tag)
    ensures FieldRule(tag, index) != Some(Integers)
  {
  }

  lemma {:induction false} ReadableEach(fs: seq<Field>)
    ensures AllReadable(fs) <==> forall i | 0 <= i < |fs| :: Readable(fs[i])
  {
    if fs != [] {
      ReadableEach(fs[1..]);
      if AllReadable(fs) {
        forall i | 0 <= i < |fs|
          ensures Readable(fs[i])
        {
          assert i > 0 ==> fs[i] == fs[1..][i - 1];
        }
      }
    }
  }

  /** Rows of the schema that end in a set have no integer, so nothing in them is oversized. */
  lemma SchemaReadable(n: Node)
    requires Conforms(n) && EndsInSet(n.tag)
    ensures AllReadable(n.fields) && forall f | f in n.fields :: Writable(f)
  {
    forall i | 0 <= i < |n.fields|
      ensures Readable(n.fields[i]) && Writable(n.fields[i])
    {
      NoIntegerBeforeSet(n.tag, i);
    }
    ReadableEach(n.fields);
  }

  /** A row of the schema can be stripped exactly when its tag ends in a set, whatever it holds. */
  lemma SchemaCanStrip(n: Node)
    requires Conforms(n)
    ensures CanStrip(n, FieldCount) <==> EndsInSet(n.tag)
  {
    LastRule(n.tag);
    if EndsInSet(n.tag) {
      SchemaReadable(n);
    }
  }

  lemma StrippedConforms(n: Node)
    requires Conforms(n) && EndsInSet(n.tag)
    ensures n.fields != [] && Conforms(Stripped(n))
  {
    LastRule(n.tag);
  }

  /** On rows of the schema the reader succeeds exactly for the tags that end in a set, and yields
      a row of the schema again. */
  lemma SchemaStrips(n: Node)
    requires Conforms(n) && |Encode(n)| < U64 && forall f | f in n.fields :: Writable(f)
    ensures Strip(Encode(n), FieldCount).Ok? <==> EndsInSet(n.tag)
    ensures EndsInSet(n.tag) ==> Strip(Encode(n), FieldCount) == Ok(Encode(Stripped(n))) && Conforms(Stripped(n))
  {
    SchemaCanStrip(n);
    StripUndoesEncode(n, FieldCount);
    if EndsInSet(n.tag) {
      StrippedConforms(n);
    }
  }

  // ----- Closures of such rows

  /** The rules of the extension collection, and the atoms they are made of. */
  predicate IsRule(tag: nat) { 140 <= tag <= 148 }

  /** Trees whose rows were validated. */
  ghost predicate Validated(ns: seq<Node>)
  {
    forall n | n in ns :: Conforms(n) && WellFormed(n) && |Encode(n)| < U64
  }

  ghost predicate AllRules(ns: seq<Node>)
  {
    forall n | n in ns :: n.tag == 148
  }

  /** The logical axioms are the axioms, tags 60 to 123 of the schema, without declarations (60) and
      annotation axioms (120 to 123). */
  lemma LogicalTags(tag: nat)
    ensures IsLogicalAxiom(tag) <==>
      60 <= tag <= 123 && FieldCount(tag).Some? && tag != 60 && !(120 <= tag <= 123)
  {
  }

  lemma LogicalEndsInSet(tag: nat)
    requires FieldCount(tag).Some?
    ensures IsLogicalAxiom(tag) ==> EndsInSet(tag)
    ensures IsRule(tag) ==> (EndsInSet(tag) <==> tag == 148)
  {
  }

  lemma SchemaUsable(n: Node)
    requires Conforms(n) && WellFormed(n) && |Encode(n)| < U64
    ensures Usable(Encode(n), FieldCount)
  {
    TagRead(n);
    LogicalEndsInSet(n.tag);
    if IsLogicalAxiom(n.tag) {
      SchemaStrips(n);
    }
  }

  lemma AxiomsUsable(ns: seq<Node>)
    requires Validated(ns)
    ensures forall row | row in RowsOf(ns) :: Usable(row, FieldCount)
  {
    forall row | row in RowsOf(ns)
      ensures Usable(row, FieldCount)
    {
      RowsMember(ns, row);
      var n :| n in ns && Encode(n) == row;
      SchemaUsable(n);
    }
  }

  lemma RuleStrips(n: Node)
    requires Conforms(n) && WellFormed(n) && |Encode(n)| < U64 && IsRule(n.tag)
    ensures Strip(Encode(n), FieldCount).Ok? <==> n.tag == 148
  {
    LogicalEndsInSet(n.tag);
    SchemaStrips(n);
  }

  lemma RulesUsable(ns: seq<Node>)
    requires Validated(ns) && forall n | n in ns :: IsRule(n.tag)
    ensures (forall row | row in RowsOf(ns) :: Strip(row, FieldCount).Ok?) <==> AllRules(ns)
  {
    if AllRules(ns) {
      forall row | row in RowsOf(ns)
        ensures Strip(row, FieldCount).Ok?
      {
        RowsMember(ns, row);
        var n :| n in ns && Encode(n) == row;
        RuleStrips(n);
      }
    }
    if forall row | row in RowsOf(ns) :: Strip(row, FieldCount).Ok? {
      forall n | n in ns
        ensures n.tag == 148
      {
        RowsMember(ns, Encode(n));
        RuleStrips(n);
      }
    }
  }

  /** Of a validated closure every axiom row can be used, and the extension rows exactly when each
      is a whole rule and none an atom. */
  lemma ClosureUsable(axioms: seq<Node>, extensions: seq<Node>)
    requires Validated(axioms) && Validated(extensions) && forall n | n in extensions :: IsRule(n.tag)
    ensures AllUsable(RowsOf(axioms), RowsOf(extensions), FieldCount) <==> AllRules(extensions)
  {
    AxiomsUsable(axioms);
    RulesUsable(extensions);
  }

  lemma SchemaFit(n: Node, all: bool)
    requires Conforms(n) && WellFormed(n) && |Encode(n)| < U64 && (all ==> n.tag == 148)
    ensures Fit(n, FieldCount, all)
  {
    SchemaCanStrip(n);
    LogicalEndsInSet(n.tag);
  }

  lemma ValidatedFit(ns: seq<Node>, all: bool)
    requires Validated(ns) && (all ==> AllRules(ns))
    ensures AllFitTrees(ns, FieldCount, all)
  {
    forall n | n in ns
      ensures Fit(n, FieldCount, all)
    {
      SchemaFit(n, all);
    }
  }

  /** Two validated closures have the same preimage exactly when their logical axioms and their
      rules are the same sets up to annotations. */
  lemma ClosuresDecide(p: Bytes, q: Bytes, axioms: seq<Node>, rules: seq<Node>,
                       otherAxioms: seq<Node>, otherRules: seq<Node>)
    requires Validated(axioms) && Validated(rules) && AllRules(rules)
    requires Validated(otherAxioms) && Validated(otherRules) && AllRules(otherRules)
    requires IsFingerprint(p, RowsOf(axioms), RowsOf(rules), FieldCount)
    requires IsFingerprint(q, RowsOf(otherAxioms), RowsOf(otherRules), FieldCount)
    ensures p == q
       <==> && Covered(axioms, otherAxioms, false) && Covered(otherAxioms, axioms, false)
            && Covered(rules, otherRules, true) && Covered(otherRules, rules, true)
  {
    ValidatedFit(axioms, false);
    ValidatedFit(otherAxioms, false);
    ValidatedFit(rules, true);
    ValidatedFit(otherRules, true);
    TreesDecide(p, q, axioms, rules, otherAxioms, otherRules, FieldCount);
  }
}
