/** The logical fingerprint of a closure: the byte string that is hashed identifies exactly the
    sets of annotation-free logical axioms and extensions. */
module LogicalFingerprint {
  import opened Ordering
  import opened Varint
  import opened Canonical
  import opened AnnotationStripping

  // "pyowl-core:snapshot-logical:v2\0"
  const DOMAIN: Bytes := [112, 121, 111, 119, 108, 45, 99, 111, 114, 101, 58, 115, 110, 97, 112, 115, 104, 111, 116,
                          45, 108, 111, 103, 105, 99, 97, 108, 58, 118, 50, 0]

  // "datatype-policy:owl2-v1\0"
  const POLICY: Bytes := [100, 97, 116, 97, 116, 121, 112, 101, 45, 112, 111, 108, 105, 99, 121, 58, 111, 119, 108,
                          50, 45, 118, 49, 0]

  const EXTENSION: byte := 69

  predicate IsLogicalAxiom(tag: nat)
  {
    || 61 <= tag <= 64
    || 70 <= tag <= 82
    || 90 <= tag <= 95
    || 100 <= tag <= 101
    || 110 <= tag <= 116
  }

  function FrameRows(rows: seq<Bytes>, marked: bool): Bytes
  {
    if rows == [] then []
    else if marked then [EXTENSION] + Frame(rows[0]) + FrameRows(rows[1..], marked)
    else Frame(rows[0]) + FrameRows(rows[1..], marked)
  }

  function Counted(rows: seq<Bytes>, marked: bool): Bytes
  {
    Leb(|rows|) + FrameRows(rows, marked)
  }

  function Preimage(axioms: seq<Bytes>, extensions: seq<Bytes>): Bytes
  {
    DOMAIN + POLICY + (Counted(axioms, false) + Counted(extensions, true))
  }

  // ----- What the rows of a closure denote

  predicate Usable(row: Bytes, fieldCount: nat -> Option<nat>)
  {
    ReadVarint(row, 0).Number? && (Logical(row) ==> Strip(row, fieldCount).Ok?)
  }

  predicate Logical(row: Bytes)
  {
    ReadVarint(row, 0).Number? && IsLogicalAxiom(ReadVarint(row, 0).number)
  }

  ghost function LogicalAxioms(rows: seq<Bytes>, fieldCount: nat -> Option<nat>): set<Bytes>
  {
    set row | row in rows && Logical(row) && Strip(row, fieldCount).Ok? :: Strip(row, fieldCount).value
  }

  ghost function Extensions(rows: seq<Bytes>, fieldCount: nat -> Option<nat>): set<Bytes>
  {
    set row | row in rows && Strip(row, fieldCount).Ok? :: Strip(row, fieldCount).value
  }

  // ----- The preparation

  method CollectLogical(rows: seq<Bytes>, fieldCount: nat -> Option<nat>) returns (r: Result<seq<Bytes>, StripError>)
    ensures r.Ok? <==> forall row | row in rows :: Usable(row, fieldCount)
    ensures r.Ok? ==> Elements(r.value) == LogicalAxioms(rows, fieldCount) && |r.value| <= |rows|
  {
    var axioms := [];
    for i := 0 to |rows|
      invariant forall row | row in rows[..i] :: Usable(row, fieldCount)
      invariant Elements(axioms) == LogicalAxioms(rows[..i], fieldCount) && |axioms| <= i
    {
      assert rows[..i + 1] == rows[..i] + [rows[i]] && rows[i] in rows;
      var tag := ReadVarintLoop(rows[i], 0);
      if tag.Unreadable? {
        return Err(ReadFailure(tag.error));
      }
      if IsLogicalAxiom(tag.number) {
        var logical := WithoutAnnotations(rows[i], fieldCount);
        if logical.Err? {
          return Err(logical.error);
        }
        assert Elements(axioms + [logical.value]) == Elements(axioms) + {logical.value};
        axioms := axioms + [logical.value];
        assert LogicalAxioms(rows[..i + 1], fieldCount) == LogicalAxioms(rows[..i], fieldCount) + {logical.value};
      } else {
        assert LogicalAxioms(rows[..i + 1], fieldCount) == LogicalAxioms(rows[..i], fieldCount);
      }
    }
    assert rows[..|rows|] == rows;
    return Ok(axioms);
  }

  method CollectExtensions(rows: seq<Bytes>, fieldCount: nat -> Option<nat>) returns (r: Result<seq<Bytes>, StripError>)
    ensures r.Ok? <==> forall row | row in rows :: Strip(row, fieldCount).Ok?
    ensures r.Ok? ==> Elements(r.value) == Extensions(rows, fieldCount) && |r.value| <= |rows|
  {
    var extensions := [];
    for i := 0 to |rows|
      invariant forall row | row in rows[..i] :: Strip(row, fieldCount).Ok?
      invariant Elements(extensions) == Extensions(rows[..i], fieldCount) && |extensions| <= i
    {
      assert rows[..i + 1] == rows[..i] + [rows[i]] && rows[i] in rows;
      var logical := WithoutAnnotations(rows[i], fieldCount);
      if logical.Err? {
        return Err(logical.error);
      }
      assert Elements(extensions + [logical.value]) == Elements(extensions) + {logical.value};
      assert Extensions(rows[..i + 1], fieldCount) == Extensions(rows[..i], fieldCount) + {logical.value};
      extensions := extensions + [logical.value];
    }
    assert rows[..|rows|] == rows;
    return Ok(extensions);
  }

  /** The strictly ascending list of a set of rows. */
  ghost predicate Lists(rows: seq<Bytes>, members: set<Bytes>)
  {
    Ascending(rows, ByteOrder) && Elements(rows) == members
  }

  method SortDedup(rows: seq<Bytes>) returns (result: seq<Bytes>)
    ensures Lists(result, Elements(rows)) && |result| <= |rows|
  {
    var sorted := Sort(rows, ByteOrder);
    PermutationElements(sorted, rows);
    DedupElements(sorted, ByteOrder);
    DedupAscending(sorted, ByteOrder);
    result := DedupBy(sorted, ByteOrder);
  }

  method AppendRows(rows: seq<Bytes>, marked: bool, preimage: Bytes) returns (result: Bytes)
    requires |rows| < U64 && forall row | row in rows :: |row| < U64
    ensures result == preimage + Counted(rows, marked)
  {
    result := EncodeU64(|rows|, preimage);
    for i := 0 to |rows|
      invariant result + FrameRows(rows[i..], marked) == preimage + Counted(rows, marked)
    {
      RowsStep(result, rows[i..], marked);
      assert rows[i..][1..] == rows[i + 1..] && rows[i] in rows;
      if marked {
        result := result + [EXTENSION];
      }
      result := EncodeFrame(rows[i], result);
    }
    assert result + FrameRows([], marked) == result;
  }

  lemma RowsStep(before: Bytes, rows: seq<Bytes>, marked: bool)
    requires rows != []
    ensures before + FrameRows(rows, marked)
         == (if marked then before + [EXTENSION] else before) + Frame(rows[0]) + FrameRows(rows[1..], marked)
  {
  }

  ghost predicate AllUsable(axiomRows: seq<Bytes>, extensionRows: seq<Bytes>, fieldCount: nat -> Option<nat>)
  {
    && (forall row | row in axiomRows :: Usable(row, fieldCount))
    && (forall row | row in extensionRows :: Strip(row, fieldCount).Ok?)
  }

  ghost predicate IsFingerprint(p: Bytes, axiomRows: seq<Bytes>, extensionRows: seq<Bytes>,
                                fieldCount: nat -> Option<nat>)
  {
    exists axioms, extensions ::
      && Lists(axioms, LogicalAxioms(axiomRows, fieldCount))
      && Lists(extensions, Extensions(extensionRows, fieldCount))
      && p == Preimage(axioms, extensions)
  }

  /** Fails exactly when some row cannot be read, and otherwise hashes the canonical listing of
      the stripped logical axioms and extensions. */
  method PrepareLogicalFingerprint(axiomRows: seq<Bytes>, extensionRows: seq<Bytes>, fieldCount: nat -> Option<nat>)
    returns (r: Result<Bytes, StripError>)
    requires |axiomRows| < U64 && |extensionRows| < U64
    requires forall row | row in axiomRows + extensionRows :: |row| < U64 - 2
    ensures r.Ok? <==> AllUsable(axiomRows, extensionRows, fieldCount)
    ensures r.Ok? ==> IsFingerprint(r.value, axiomRows, extensionRows, fieldCount)
  {
    var logical := CollectLogical(axiomRows, fieldCount);
    if logical.Err? {
      return Err(logical.error);
    }
    var stripped := CollectExtensions(extensionRows, fieldCount);
    if stripped.Err? {
      return Err(stripped.error);
    }
    var axioms := SortDedup(logical.value);
    var extensions := SortDedup(stripped.value);
    StrippedShort(axiomRows, axioms, fieldCount);
    StrippedShort(extensionRows, extensions, fieldCount);
    var preimage := AppendRows(axioms, false, DOMAIN + POLICY);
    preimage := AppendRows(extensions, true, preimage);
    Concat(DOMAIN + POLICY, Counted(axioms, false), Counted(extensions, true));
    return Ok(preimage);
  }

  lemma StrippedShort(rows: seq<Bytes>, result: seq<Bytes>, fieldCount: nat -> Option<nat>)
    requires forall row | row in rows :: |row| < U64 - 2
    requires Elements(result) <= Extensions(rows, fieldCount)
    ensures forall row | row in result :: |row| < U64
  {
    forall row | row in result
      ensures |row| < U64
    {
      assert row in Elements(result);
    }
  }

  // ----- The preimage identifies the sets

  lemma {:induction false} RowsPrefixFree(a: seq<Bytes>, b: seq<Bytes>, marked: bool, x: Bytes, y: Bytes)
    requires |a| == |b| && FrameRows(a, marked) + x == FrameRows(b, marked) + y
    ensures a == b && x == y
  {
    if a == [] {
      assert [] + x == x && [] + y == y;
    } else {
      var u, v := FrameRows(a[1..], marked) + x, FrameRows(b[1..], marked) + y;
      RowsUnfold(a, marked, x);
      RowsUnfold(b, marked, y);
      FramePrefixFree(a[0], b[0], u, v);
      RowsPrefixFree(a[1..], b[1..], marked, x, y);
      assert a == [a[0]] + a[1..] && b == [b[0]] + b[1..];
    }
  }

  lemma RowsUnfold(a: seq<Bytes>, marked: bool, x: Bytes)
    requires a != []
    ensures var s, t := FrameRows(a, marked) + x, Frame(a[0]) + (FrameRows(a[1..], marked) + x);
      if marked then s != [] && s[1..] == t else s == t
  {
    Concat(Frame(a[0]), FrameRows(a[1..], marked), x);
    if marked {
      Concat([EXTENSION], Frame(a[0]), FrameRows(a[1..], marked));
    }
  }

  lemma CountedPrefixFreeRows(a: seq<Bytes>, b: seq<Bytes>, marked: bool, x: Bytes, y: Bytes)
    requires Counted(a, marked) + x == Counted(b, marked) + y
    ensures a == b && x == y
  {
    Concat(Leb(|a|), FrameRows(a, marked), x);
    Concat(Leb(|b|), FrameRows(b, marked), y);
    LebPrefixFree(|a|, |b|, FrameRows(a, marked) + x, FrameRows(b, marked) + y);
    RowsPrefixFree(a, b, marked, x, y);
  }

  lemma PreimageInjective(a: seq<Bytes>, e: seq<Bytes>, b: seq<Bytes>, f: seq<Bytes>)
    requires Preimage(a, e) == Preimage(b, f)
    ensures a == b && e == f
  {
    var head, x, y := DOMAIN + POLICY, Counted(e, true), Counted(f, true);
    assert (head + (Counted(a, false) + x))[|head|..] == Counted(a, false) + x;
    assert (head + (Counted(b, false) + y))[|head|..] == Counted(b, false) + y;
    CountedPrefixFreeRows(a, b, false, x, y);
    assert x + [] == x && y + [] == y;
    CountedPrefixFreeRows(e, f, true, [], []);
  }

  // ----- What a reader of the preimage finds

  /** Rows one after the other from here to there, each after its length, and after an "E" if marked. */
  ghost predicate Listed(p: Bytes, at: nat, rows: seq<Bytes>, marked: bool, end: nat)
    decreases |rows|
  {
    if rows == [] then at == end
    else
      var start := if marked then at + 1 else at;
      var body := start + |Leb(|rows[0]|)|;
      && (marked ==> At(p, at, [0x45]))
      && At(p, start, Leb(|rows[0]|)) && At(p, body, rows[0])
      && Listed(p, body + |rows[0]|, rows[1..], marked, end)
  }

  lemma {:induction false} RowsListed(p: Bytes, at: nat, rows: seq<Bytes>, marked: bool)
    requires At(p, at, FrameRows(rows, marked))
    ensures Listed(p, at, rows, marked, at + |FrameRows(rows, marked)|)
    decreases |rows|
  {
    if rows != [] {
      var row, rest := rows[0], FrameRows(rows[1..], marked);
      if marked {
        AtSplit(p, at, [EXTENSION] + Frame(row), rest);
        AtSplit(p, at, [EXTENSION], Frame(row));
        AtSplit(p, at + 1, Leb(|row|), row);
      } else {
        AtSplit(p, at, Frame(row), rest);
        AtSplit(p, at, Leb(|row|), row);
      }
      RowsListed(p, at + |FrameRows(rows, marked)| - |rest|, rows[1..], marked);
    }
  }

  /** From here on there are the number of axioms, the axioms, the number of extensions and the
      extensions, and then the text ends. */
  ghost predicate Sections(p: Bytes, at: nat, axioms: seq<Bytes>, extensions: seq<Bytes>)
  {
    exists end: nat ::
      && At(p, at, Leb(|axioms|)) && Listed(p, at + |Leb(|axioms|)|, axioms, false, end)
      && At(p, end, Leb(|extensions|)) && Listed(p, end + |Leb(|extensions|)|, extensions, true, |p|)
  }

  lemma SectionsRead(p: Bytes, at: nat, axioms: seq<Bytes>, extensions: seq<Bytes>)
    requires At(p, at, Counted(axioms, false) + Counted(extensions, true))
    requires |p| == at + |Counted(axioms, false) + Counted(extensions, true)|
    ensures Sections(p, at, axioms, extensions)
  {
    var first, second := Counted(axioms, false), Counted(extensions, true);
    var end := at + |first|;
    AtSplit(p, at, first, second);
    AtSplit(p, at, Leb(|axioms|), FrameRows(axioms, false));
    AtSplit(p, end, Leb(|extensions|), FrameRows(extensions, true));
    RowsListed(p, at + |Leb(|axioms|)|, axioms, false);
    RowsListed(p, end + |Leb(|extensions|)|, extensions, true);
  }

  lemma PartsPlaced(a: Bytes, b: Bytes, c: Bytes)
    ensures At(a + b + c, 0, a) && At(a + b + c, |a|, b) && At(a + b + c, |a| + |b|, c)
  {
    var p := a + b + c;
    AtSlice(p, 0, a);
    AtSlice(p, |a|, b);
    AtSlice(p, |a| + |b|, c);
  }

  /** The preimage is the two texts and the two lists, and nothing else. */
  lemma PreimageRead(axioms: seq<Bytes>, extensions: seq<Bytes>)
    ensures At(Preimage(axioms, extensions), 0, DOMAIN)
    ensures At(Preimage(axioms, extensions), |DOMAIN|, POLICY)
    ensures Sections(Preimage(axioms, extensions), |DOMAIN| + |POLICY|, axioms, extensions)
  {
    PartsPlaced(DOMAIN, POLICY, Counted(axioms, false) + Counted(extensions, true));
    SectionsRead(Preimage(axioms, extensions), |DOMAIN| + |POLICY|, axioms, extensions);
  }

  lemma ListsUnique(a: seq<Bytes>, b: seq<Bytes>, members: set<Bytes>)
    requires Lists(a, members) && Lists(b, members)
    ensures a == b
  {
    forall row
      ensures row in a <==> row in b
    {
      assert row in a <==> row in Elements(a);
      assert row in b <==> row in Elements(b);
    }
    AscendingUnique(a, b, ByteOrder);
  }

  /** Two closures get the same preimage exactly when they have the same set of stripped logical
      axioms and the same set of stripped extensions: order, repetition and annotations are
      invisible, anything else shows. */
  lemma FingerprintDecides(p: Bytes, q: Bytes, axiomRows: seq<Bytes>, extensionRows: seq<Bytes>,
                           otherAxioms: seq<Bytes>, otherExtensions: seq<Bytes>, fieldCount: nat -> Option<nat>)
    requires IsFingerprint(p, axiomRows, extensionRows, fieldCount)
    requires IsFingerprint(q, otherAxioms, otherExtensions, fieldCount)
    ensures p == q
       <==> && LogicalAxioms(axiomRows, fieldCount) == LogicalAxioms(otherAxioms, fieldCount)
            && Extensions(extensionRows, fieldCount) == Extensions(otherExtensions, fieldCount)
  {
    var a, e :| Lists(a, LogicalAxioms(axiomRows, fieldCount)) && Lists(e, Extensions(extensionRows, fieldCount))
             && p == Preimage(a, e);
    var b, f :| Lists(b, LogicalAxioms(otherAxioms, fieldCount)) && Lists(f, Extensions(otherExtensions, fieldCount))
             && q == Preimage(b, f);
    if p == q {
      PreimageInjective(a, e, b, f);
    }
    if Elements(a) == Elements(b) && Elements(e) == Elements(f) {
      ListsUnique(a, b, Elements(a));
      ListsUnique(e, f, Elements(e));
    }
  }

  // ----- The fingerprint of trees

  function RowsOf(ns: seq<Node>): (rows: seq<Bytes>)
    ensures |rows| == |ns| && forall i | 0 <= i < |ns| :: rows[i] == Encode(ns[i])
  {
    seq(|ns|, i requires 0 <= i < |ns| => Encode(ns[i]))
  }

  lemma RowsMember(ns: seq<Node>, row: Bytes)
    ensures row in RowsOf(ns) <==> exists n :: n in ns && Encode(n) == row
  {
    if row in RowsOf(ns) {
      var i :| 0 <= i < |ns| && RowsOf(ns)[i] == row;
      assert ns[i] in ns;
    }
    if n :| n in ns && Encode(n) == row {
      var i :| 0 <= i < |ns| && ns[i] == n;
      assert RowsOf(ns)[i] == row;
    }
  }

  /** A tree that can be written, and stripped where the fingerprint strips it. */
  ghost predicate Fit(n: Node, fieldCount: nat -> Option<nat>, all: bool)
  {
    && |Encode(n)| < U64 && n.tag < U64 && WellFormed(n)
    && (all || IsLogicalAxiom(n.tag) ==> CanStrip(n, fieldCount))
  }

  ghost predicate AllFitTrees(ns: seq<Node>, fieldCount: nat -> Option<nat>, all: bool)
  {
    forall n | n in ns :: Fit(n, fieldCount, all)
  }

  /** The trees agree in everything but their annotations. */
  ghost predicate UpToAnnotations(a: Node, b: Node)
  {
    && a.tag == b.tag && a.fields != [] && b.fields != []
    && SameFields(a.fields[..|a.fields| - 1], b.fields[..|b.fields| - 1])
  }

  /** Every selected tree of the one list is in the other, up to annotations. */
  ghost predicate Covered(ns: seq<Node>, ms: seq<Node>, all: bool)
  {
    forall n | n in ns && (all || IsLogicalAxiom(n.tag)) :: exists m :: m in ms && UpToAnnotations(n, m)
  }

  /** The stripped rows of the selected trees. */
  ghost function Bare(ns: seq<Node>, fieldCount: nat -> Option<nat>, all: bool): set<Bytes>
  {
    if all then Extensions(RowsOf(ns), fieldCount) else LogicalAxioms(RowsOf(ns), fieldCount)
  }

  lemma LogicalByTag(n: Node)
    requires n.tag < U64
    ensures Logical(Encode(n)) <==> IsLogicalAxiom(n.tag)
  {
    TagRead(n);
  }

  lemma BareMember(ns: seq<Node>, fieldCount: nat -> Option<nat>, all: bool, row: Bytes)
    requires AllFitTrees(ns, fieldCount, all)
    ensures row in Bare(ns, fieldCount, all) <==>
            exists n :: n in ns && (all || IsLogicalAxiom(n.tag)) && Strip(Encode(n), fieldCount) == Ok(row)
  {
    if row in Bare(ns, fieldCount, all) {
      var r :| r in RowsOf(ns) && (all || Logical(r)) && Strip(r, fieldCount) == Ok(row);
      RowsMember(ns, r);
      var n :| n in ns && Encode(n) == r;
      LogicalByTag(n);
    }
    if n :| n in ns && (all || IsLogicalAxiom(n.tag)) && Strip(Encode(n), fieldCount) == Ok(row) {
      RowsMember(ns, Encode(n));
      LogicalByTag(n);
    }
  }

  /** Two trees strip to one row exactly when they agree up to annotations. */
  lemma BareAgree(n: Node, m: Node, fieldCount: nat -> Option<nat>, all: bool)
    requires Fit(n, fieldCount, all) && Fit(m, fieldCount, all) && (all || IsLogicalAxiom(n.tag))
    ensures Strip(Encode(n), fieldCount).Ok?
    ensures (all || IsLogicalAxiom(m.tag)) && Strip(Encode(n), fieldCount) == Strip(Encode(m), fieldCount)
       <==> UpToAnnotations(n, m)
  {
    StrippedWellFormed(n);
    StripUndoesEncode(n, fieldCount);
    if all || IsLogicalAxiom(m.tag) {
      StrippedAgree(n, m, fieldCount);
    }
  }

  lemma BareCovered(ns: seq<Node>, ms: seq<Node>, fieldCount: nat -> Option<nat>, all: bool)
    requires AllFitTrees(ns, fieldCount, all) && AllFitTrees(ms, fieldCount, all)
    ensures Bare(ns, fieldCount, all) <= Bare(ms, fieldCount, all) <==> Covered(ns, ms, all)
  {
    if Bare(ns, fieldCount, all) <= Bare(ms, fieldCount, all) {
      forall n | n in ns && (all || IsLogicalAxiom(n.tag))
        ensures exists m :: m in ms && UpToAnnotations(n, m)
      {
        BareAgree(n, n, fieldCount, all);
        var row := Strip(Encode(n), fieldCount).value;
        BareMember(ns, fieldCount, all, row);
        BareMember(ms, fieldCount, all, row);
        var m :| m in ms && (all || IsLogicalAxiom(m.tag)) && Strip(Encode(m), fieldCount) == Ok(row);
        BareAgree(n, m, fieldCount, all);
      }
    }
    if Covered(ns, ms, all) {
      forall row | row in Bare(ns, fieldCount, all)
        ensures row in Bare(ms, fieldCount, all)
      {
        BareMember(ns, fieldCount, all, row);
        var n :| n in ns && (all || IsLogicalAxiom(n.tag)) && Strip(Encode(n), fieldCount) == Ok(row);
        var m :| m in ms && UpToAnnotations(n, m);
        BareAgree(n, m, fieldCount, all);
        BareMember(ms, fieldCount, all, row);
      }
    }
  }

  /** Two closures of trees get the same preimage exactly when their logical axioms, and their
      extensions, are the same sets up to annotations. */
  lemma TreesDecide(p: Bytes, q: Bytes, axioms: seq<Node>, extensions: seq<Node>,
                    otherAxioms: seq<Node>, otherExtensions: seq<Node>, fieldCount: nat -> Option<nat>)
    requires AllFitTrees(axioms, fieldCount, false) && AllFitTrees(otherAxioms, fieldCount, false)
    requires AllFitTrees(extensions, fieldCount, true) && AllFitTrees(otherExtensions, fieldCount, true)
    requires IsFingerprint(p, RowsOf(axioms), RowsOf(extensions), fieldCount)
    requires IsFingerprint(q, RowsOf(otherAxioms), RowsOf(otherExtensions), fieldCount)
    ensures p == q
       <==> && Covered(axioms, otherAxioms, false) && Covered(otherAxioms, axioms, false)
            && Covered(extensions, otherExtensions, true) && Covered(otherExtensions, extensions, true)
  {
    FingerprintDecides(p, q, RowsOf(axioms), RowsOf(extensions), RowsOf(otherAxioms), RowsOf(otherExtensions),
                       fieldCount);
    BareCovered(axioms, otherAxioms, fieldCount, false);
    BareCovered(otherAxioms, axioms, fieldCount, false);
    BareCovered(extensions, otherExtensions, fieldCount, true);
    BareCovered(otherExtensions, extensions, fieldCount, true);
  }
}
