/** Origin rows by their parts, and the order of the merged table told by those parts. */
module OriginRows {
  import opened Ordering
  import opened FixedWidth
  import opened ClosureOrigins

  // ----- The parts of a row

  datatype Origin = Origin(digest: Bytes, key: Bytes, occurrence: nat, rest: Bytes)

  /** Digest, length and bytes of the document key, occurrence, and whatever follows. */
  function Written(o: Origin): Bytes
  {
    o.digest + ToLE(|o.key|, 4) + o.key + ToLE(o.occurrence, 8) + o.rest
  }

  predicate Sized(o: Origin)
  {
    |o.digest| == 32 && |o.key| < U32 && o.occurrence < U64 && |Written(o)| >= 45
  }

  lemma WrittenAt(o: Origin)
    requires |o.digest| == 32
    ensures var row, k := Written(o), |o.key|;
      && |row| == 44 + k + |o.rest| && row[..32] == o.digest && row[32..36] == ToLE(k, 4)
      && row[36..36 + k] == o.key && row[36 + k..44 + k] == ToLE(o.occurrence, 8)
  {
  }

  /** A row that was written so is read back so. */
  lemma ReadsWritten(o: Origin, ordinal: nat)
    requires Sized(o)
    ensures ValidOrigin(Written(o), o.key)
    ensures EntryOf(Written(o), ordinal) == Entry(o.digest, ordinal, o.occurrence, Written(o))
  {
    WrittenAt(o);
    Widths();
    FromToLE(|o.key|, 4);
    FromToLE(o.occurrence, 8);
  }

  lemma Regroup(row: Bytes, a: nat, b: nat, c: nat, d: nat)
    requires a <= b <= c <= d <= |row|
    ensures row == row[..a] + row[a..b] + row[b..c] + row[c..d] + row[d..]
  {
  }

  /** Every valid row was written from such parts, which its reading gives. */
  lemma PartsOf(row: Bytes, key: Bytes, ordinal: nat) returns (o: Origin)
    requires ValidOrigin(row, key)
    ensures Sized(o) && o.key == key && row == Written(o)
    ensures EntryOf(row, ordinal) == Entry(o.digest, ordinal, o.occurrence, row)
  {
    var end := KeyEnd(row);
    o := Origin(row[..32], key, FromLE(row[end..end + 8]), row[end + 8..]);
    Widths();
    ToFromLE(row[32..36]);
    ToFromLE(row[end..end + 8]);
    Regroup(row, 32, 36, end, end + 8);
  }

  /** The rows that are accepted for a document are exactly those. */
  lemma AcceptedRows(row: Bytes, key: Bytes)
    ensures ValidOrigin(row, key) <==> exists o :: Sized(o) && o.key == key && row == Written(o)
  {
    if ValidOrigin(row, key) {
      var o := PartsOf(row, key, 0);
    }
    if o :| Sized(o) && o.key == key && row == Written(o) {
      ReadsWritten(o, 0);
    }
  }

  // ----- The order

  /** By digest, then by document key, then by occurrence, then by the whole row. */
  ghost predicate PartsBefore(o: Origin, p: Origin)
  {
    || Before(o.digest, p.digest)
    || (o.digest == p.digest && Before(o.key, p.key))
    || (o.digest == p.digest && o.key == p.key && o.occurrence < p.occurrence)
    || (o.digest == p.digest && o.key == p.key && o.occurrence == p.occurrence && Before(Written(o), Written(p)))
  }

  ghost predicate OriginBefore(row: Bytes, other: Bytes)
  {
    exists o, p :: Sized(o) && Sized(p) && row == Written(o) && other == Written(p) && PartsBefore(o, p)
  }

  lemma EntriesBefore(d: Entry, e: Entry, documents: seq<Document>)
    requires Genuine([d, e], documents) && d.row != e.row && !LexLess(EntryKey(e), EntryKey(d))
    requires Ascending(KeyList(documents), ByteOrder)
    ensures OriginBefore(d.row, e.row)
  {
    assert d in [d, e] && e in [d, e];
    var o := PartsOf(d.row, documents[d.ordinal].key, d.ordinal);
    var p := PartsOf(e.row, documents[e.ordinal].key, e.ordinal);
    EntryOrder(d, e);
    EntryOrder(e, d);
    LexTotal(d.digest, e.digest);
    LexTotal(d.row, e.row);
    OrdinalsByKey(documents, d.ordinal, e.ordinal);
    LexByDifference(d.digest, e.digest);
    LexByDifference(o.key, p.key);
    LexByDifference(d.row, e.row);
    assert PartsBefore(o, p);
  }

  lemma OrdinalsByKey(documents: seq<Document>, i: nat, j: nat)
    requires Ascending(KeyList(documents), ByteOrder) && i < |documents| && j < |documents|
    ensures i < j ==> LexLess(documents[i].key, documents[j].key)
    ensures i == j ==> documents[i].key == documents[j].key
  {
    var keys := KeyList(documents);
    assert i < j ==> LexLess(ByteOrder(keys[i]), ByteOrder(keys[j]));
  }

  /** The merged table of documents with ascending keys is strictly in that order. */
  lemma MergedOrder(rows: seq<Bytes>, documents: seq<Document>)
    requires InOriginOrder(rows, documents) && Distinct(rows) && Ascending(KeyList(documents), ByteOrder)
    ensures forall i, j | 0 <= i < j < |rows| :: OriginBefore(rows[i], rows[j])
  {
    var entries :| Genuine(entries, documents) && SortedBy(entries, EntryKey) && rows == RowsOf(entries);
    forall i, j | 0 <= i < j < |rows|
      ensures OriginBefore(rows[i], rows[j])
    {
      RowsOfAt(entries, i);
      RowsOfAt(entries, j);
      assert rows[i] != rows[j];
      EntriesBefore(entries[i], entries[j], documents);
    }
  }

  // ----- Keys

  /** The keys that are accepted: nonempty ASCII, strictly ascending, and the root among them. */
  lemma AcceptedKeys(keys: seq<Bytes>, root: Bytes)
    ensures GoodKeys(keys, root) <==>
      && (exists i :: 0 <= i < |keys| && keys[i] == root)
      && (forall i | 0 <= i < |keys| :: |keys[i]| > 0 && forall j | 0 <= j < |keys[i]| :: keys[i][j] <= 0x7f)
      && (forall i, j | 0 <= i < j < |keys| :: Before(keys[i], keys[j]))
  {
    forall i, j | 0 <= i < j < |keys|
      ensures LexLess(ByteOrder(keys[i]), ByteOrder(keys[j])) <==> Before(keys[i], keys[j])
    {
      LexByDifference(keys[i], keys[j]);
    }
    forall i | 0 <= i < |keys|
      ensures GoodKey(keys[i]) <==> |keys[i]| > 0 && forall j | 0 <= j < |keys[i]| :: keys[i][j] <= 0x7f
    {
      assert forall j | 0 <= j < |keys[i]| :: keys[i][j] in keys[i];
    }
  }
}
