/** Merging the origin rows of all documents of a closure into one sorted, duplicate-free table. */
module ClosureOrigins {
  import opened Ordering
  import opened FixedWidth

  datatype Document = Document(key: Bytes, origins: Option<seq<Bytes>>)

  datatype OriginError = BadKeys | Malformed | NotUnique

  // ----- Document keys

  predicate IsAscii(s: Bytes)
  {
    forall b | b in s :: b < 128
  }

  predicate GoodKey(key: Bytes)
  {
    key != [] && IsAscii(key)
  }

  method ValidateDocumentKeys(keys: seq<Bytes>, root: Bytes) returns (ok: bool)
    ensures ok <==> root in keys && (forall key | key in keys :: GoodKey(key)) && Ascending(keys, ByteOrder)
  {
    if keys == [] || root == [] || !IsAscii(root) || root !in keys {
      return false;
    }
    var previous: Option<Bytes> := None;
    for i := 0 to |keys|
      invariant forall j | 0 <= j < i :: GoodKey(keys[j])
      invariant forall j, k | 0 <= j < k < i :: LexLess(keys[j], keys[k])
      invariant previous == if i == 0 then None else Some(keys[i - 1])
    {
      if !GoodKey(keys[i]) {
        assert keys[i] in keys;
        return false;
      }
      if previous.Some? && !LexLess(previous.value, keys[i]) {
        return false;
      }
      forall j | 0 <= j < i
        ensures LexLess(keys[j], keys[i])
      {
        if j < i - 1 { LexTransitive(keys[j], keys[i - 1], keys[i]); }
      }
      previous := Some(keys[i]);
    }
    return true;
  }

  // ----- One origin row: digest, framed document key, occurrence, remainder

  function KeyEnd(row: Bytes): nat
    requires |row| >= 36
  {
    36 + FromLE(row[32..36])
  }

  predicate ValidOrigin(row: Bytes, key: Bytes)
  {
    && |row| >= 45
    && KeyEnd(row) <= |row|
    && row[36..KeyEnd(row)] == key
    && KeyEnd(row) + 8 <= |row|
  }

  datatype Entry = Entry(digest: Bytes, ordinal: nat, occurrence: nat, row: Bytes)

  function EntryOf(row: Bytes, ordinal: nat): Entry
    requires |row| >= 45 && KeyEnd(row) + 8 <= |row|
  {
    Entry(row[..32], ordinal, FromLE(row[KeyEnd(row)..KeyEnd(row) + 8]), row)
  }

  /** Digest, then document, then occurrence, then the row itself. */
  function EntryKey(e: Entry): seq<int>
  {
    e.digest + ([e.ordinal, e.occurrence] + e.row)
  }

  function RowsOf(entries: seq<Entry>): (rows: seq<Bytes>)
    ensures |rows| == |entries|
  {
    if entries == [] then [] else RowsOf(entries[..|entries| - 1]) + [entries[|entries| - 1].row]
  }

  lemma {:induction false} RowsOfAt(entries: seq<Entry>, i: nat)
    requires i < |entries|
    ensures RowsOf(entries)[i] == entries[i].row
  {
    if i < |entries| - 1 { RowsOfAt(entries[..|entries| - 1], i); }
  }

  lemma RowsOfAppend(entries: seq<Entry>, e: Entry)
    ensures RowsOf(entries + [e]) == RowsOf(entries) + [e.row]
  {
    assert (entries + [e])[..|entries|] == entries;
  }

  lemma {:induction false} RowsOfConcat(a: seq<Entry>, b: seq<Entry>)
    ensures RowsOf(a + b) == RowsOf(a) + RowsOf(b)
  {
    if b == [] {
      assert a + b == a;
    } else {
      RowsOfConcat(a, b[..|b| - 1]);
      assert (a + b)[..|a + b| - 1] == a + b[..|b| - 1];
    }
  }

  lemma {:induction false} RowsOfPermutation(a: seq<Entry>, b: seq<Entry>)
    requires multiset(a) == multiset(b)
    ensures multiset(RowsOf(a)) == multiset(RowsOf(b))
    decreases |a|
  {
    PermutationElements(a, b);
    if a != [] {
      var init, x := a[..|a| - 1], a[|a| - 1];
      assert x in a;
      var i :| 0 <= i < |b| && b[i] == x;
      RemoveMultiset(b, i);
      RemoveMultiset(a, |a| - 1);
      assert init + a[|a|..] == init;
      RowsOfPermutation(init, b[..i] + b[i + 1..]);
      RowsOfConcat(b[..i], b[i + 1..]);
      RowsOfSplit(b, i);
    }
  }

  lemma RowsOfSplit(b: seq<Entry>, i: nat)
    requires i < |b|
    ensures RowsOf(b) == RowsOf(b[..i]) + [b[i].row] + RowsOf(b[i + 1..])
  {
    assert b == b[..i + 1] + b[i + 1..] && b[..i + 1][..i] == b[..i];
    RowsOfConcat(b[..i + 1], b[i + 1..]);
  }

  lemma EntryOrder(d: Entry, e: Entry)
    requires |d.digest| == |e.digest|
    ensures LexLess(EntryKey(d), EntryKey(e))
       <==> || LexLess(d.digest, e.digest)
            || (d.digest == e.digest && d.ordinal < e.ordinal)
            || (d.digest == e.digest && d.ordinal == e.ordinal && d.occurrence < e.occurrence)
            || (d.digest == e.digest && d.ordinal == e.ordinal && d.occurrence == e.occurrence && LexLess(d.row, e.row))
  {
    LexTuple(d.digest, e.digest, [d.ordinal, d.occurrence] + d.row, [e.ordinal, e.occurrence] + e.row);
    LexTuple([d.ordinal, d.occurrence], [e.ordinal, e.occurrence], d.row, e.row);
    assert [d.ordinal, d.occurrence][1..] == [d.occurrence] && [e.ordinal, e.occurrence][1..] == [e.occurrence];
  }

  // ----- The merge

  ghost predicate AllValid(documents: seq<Document>)
  {
    forall document | document in documents :: DocumentValid(document)
  }

  ghost predicate DocumentValid(document: Document)
  {
    forall row | row in Rows(document) :: ValidOrigin(row, document.key)
  }

  function Rows(document: Document): seq<Bytes>
  {
    if document.origins.Some? then document.origins.value else []
  }

  ghost function AllRows(documents: seq<Document>): seq<Bytes>
  {
    if documents == [] then []
    else AllRows(documents[..|documents| - 1]) + Rows(documents[|documents| - 1])
  }

  /** Every entry is the reading of a row of the document it names. */
  ghost predicate Genuine(entries: seq<Entry>, documents: seq<Document>)
  {
    forall e | e in entries ::
      e.ordinal < |documents| && ValidOrigin(e.row, documents[e.ordinal].key) && e == EntryOf(e.row, e.ordinal)
  }

  lemma GenuineAppend(entries: seq<Entry>, documents: seq<Document>, row: Bytes, ordinal: nat)
    requires Genuine(entries, documents)
    requires ordinal < |documents| && ValidOrigin(row, documents[ordinal].key)
    ensures Genuine(entries + [EntryOf(row, ordinal)], documents)
  {
  }

  method CollectDocument(documents: seq<Document>, ordinal: nat, before: seq<Entry>)
    returns (ok: bool, keyed: seq<Entry>)
    requires ordinal < |documents| && Genuine(before, documents)
    ensures ok <==> DocumentValid(documents[ordinal])
    ensures ok ==> Genuine(keyed, documents) && RowsOf(keyed) == RowsOf(before) + Rows(documents[ordinal])
  {
    var rows, key := Rows(documents[ordinal]), documents[ordinal].key;
    keyed := before;
    for i := 0 to |rows|
      invariant forall j | 0 <= j < i :: ValidOrigin(rows[j], key)
      invariant Genuine(keyed, documents)
      invariant RowsOf(keyed) == RowsOf(before) + rows[..i]
    {
      if !ValidOrigin(rows[i], key) {
        assert rows[i] in rows;
        return false, [];
      }
      CollectStep(documents, ordinal, before, keyed, rows, i);
      keyed := keyed + [EntryOf(rows[i], ordinal)];
    }
    TakeAll(rows);
    return true, keyed;
  }

  lemma CollectStep(documents: seq<Document>, ordinal: nat, before: seq<Entry>, keyed: seq<Entry>, rows: seq<Bytes>,
                    i: nat)
    requires ordinal < |documents| && i < |rows| && ValidOrigin(rows[i], documents[ordinal].key)
    requires Genuine(keyed, documents) && RowsOf(keyed) == RowsOf(before) + rows[..i]
    ensures var next := keyed + [EntryOf(rows[i], ordinal)];
      Genuine(next, documents) && RowsOf(next) == RowsOf(before) + rows[..i + 1]
  {
    TakeNext(rows, i);
    RowsOfAppend(keyed, EntryOf(rows[i], ordinal));
    GenuineAppend(keyed, documents, rows[i], ordinal);
    assert RowsOf(before) + rows[..i] + [rows[i]] == RowsOf(before) + (rows[..i] + [rows[i]]);
  }

  method CollectEntries(documents: seq<Document>) returns (ok: bool, keyed: seq<Entry>)
    ensures ok <==> AllValid(documents)
    ensures ok ==> Genuine(keyed, documents) && RowsOf(keyed) == AllRows(documents)
  {
    keyed := [];
    for ordinal := 0 to |documents|
      invariant AllValid(documents[..ordinal]) && Genuine(keyed, documents)
      invariant RowsOf(keyed) == AllRows(documents[..ordinal])
    {
      assert documents[..ordinal + 1] == documents[..ordinal] + [documents[ordinal]];
      ok, keyed := CollectDocument(documents, ordinal, keyed);
      if !ok {
        assert documents[ordinal] in documents;
        return;
      }
    }
    assert documents[..|documents|] == documents;
    ok := true;
  }

  ghost predicate DistinctKeys(documents: seq<Document>)
  {
    forall i, j | 0 <= i < j < |documents| :: documents[i].key != documents[j].key
  }

  /** Two readings of one row cannot come from different documents, so they share their key. */
  lemma EqualRowsEqualEntries(d: Entry, e: Entry, documents: seq<Document>)
    requires Genuine([d, e], documents) && d.row == e.row
    requires DistinctKeys(documents)
    ensures d == e
  {
    assert d in [d, e] && e in [d, e];
  }

  /** In a sorted table of genuine entries, any repeated row is repeated side by side. */
  lemma DuplicatesAdjacent(entries: seq<Entry>, documents: seq<Document>, i: nat, j: nat)
    requires Genuine(entries, documents) && SortedBy(entries, EntryKey)
    requires DistinctKeys(documents)
    requires i < j < |entries| && entries[i].row == entries[j].row
    ensures entries[i].row == entries[i + 1].row
  {
    var d, e, m := entries[i], entries[j], entries[i + 1];
    EqualRowsEqualEntries(d, e, documents);
    assert !LexLess(EntryKey(m), EntryKey(d));
    if i + 1 < j {
      assert !LexLess(EntryKey(e), EntryKey(m));
      LexTotal(EntryKey(d), EntryKey(m));
      assert |d.digest| == |m.digest| == 32 by { assert d in entries && m in entries; }
      assert EntryKey(d)[34..] == d.row && EntryKey(m)[34..] == m.row;
    }
  }

  /** The merged table is a sorted arrangement of all rows of all documents, without repetition.
      A repetition anywhere is reported, although only neighbours are compared. */
  method MergeClosureOrigins(documents: seq<Document>) returns (r: Result<seq<Bytes>, OriginError>)
    requires DistinctKeys(documents)
    ensures r != Err(BadKeys) && (r == Err(Malformed) <==> !AllValid(documents))
    ensures r == Err(NotUnique) <==> AllValid(documents) && !Distinct(AllRows(documents))
    ensures r.Ok? ==> multiset(r.value) == multiset(AllRows(documents)) && Distinct(r.value)
    ensures r.Ok? ==> InOriginOrder(r.value, documents)
  {
    var ok, collected := CollectEntries(documents);
    if !ok {
      return Err(Malformed);
    }
    var keyed := Sort(collected, EntryKey);
    PermutationElements(keyed, collected);
    RowsOfPermutation(keyed, collected);
    if Distinct(RowsOf(keyed)) { PermutationDistinct(RowsOf(keyed), AllRows(documents)); }
    if Distinct(AllRows(documents)) { PermutationDistinct(AllRows(documents), RowsOf(keyed)); }
    var repeated := AdjacentRepetition(keyed, documents);
    if repeated {
      return Err(NotUnique);
    }
    return Ok(RowsOf(keyed));
  }

  /** The rows are in the order of their readings. */
  ghost predicate InOriginOrder(rows: seq<Bytes>, documents: seq<Document>)
  {
    exists entries :: Genuine(entries, documents) && SortedBy(entries, EntryKey) && rows == RowsOf(entries)
  }

  method AdjacentRepetition(keyed: seq<Entry>, documents: seq<Document>) returns (repeated: bool)
    requires DistinctKeys(documents) && Genuine(keyed, documents) && SortedBy(keyed, EntryKey)
    ensures repeated <==> !Distinct(RowsOf(keyed))
  {
    var i := 1;
    while i < |keyed|
      invariant i >= 1
      invariant forall j | 0 < j < i && j < |keyed| :: keyed[j - 1].row != keyed[j].row
    {
      if keyed[i - 1].row == keyed[i].row {
        RowsOfAt(keyed, i - 1);
        RowsOfAt(keyed, i);
        return true;
      }
      i := i + 1;
    }
    NoRepetition(keyed, documents);
    return false;
  }

  lemma NoRepetition(keyed: seq<Entry>, documents: seq<Document>)
    requires DistinctKeys(documents) && Genuine(keyed, documents) && SortedBy(keyed, EntryKey)
    requires forall j | 0 < j < |keyed| :: keyed[j - 1].row != keyed[j].row
    ensures Distinct(RowsOf(keyed))
  {
    forall a, b | 0 <= a < b < |keyed|
      ensures RowsOf(keyed)[a] != RowsOf(keyed)[b]
    {
      RowsOfAt(keyed, a);
      RowsOfAt(keyed, b);
      if keyed[a].row == keyed[b].row {
        DuplicatesAdjacent(keyed, documents, a, b);
      }
    }
  }

  // ----- From the keys to the merged table

  function KeyList(documents: seq<Document>): (keys: seq<Bytes>)
    ensures |keys| == |documents| && forall i | 0 <= i < |keys| :: keys[i] == documents[i].key
  {
    seq(|documents|, i requires 0 <= i < |documents| => documents[i].key)
  }

  ghost predicate GoodKeys(keys: seq<Bytes>, root: Bytes)
  {
    root in keys && (forall key | key in keys :: GoodKey(key)) && Ascending(keys, ByteOrder)
  }

  /** Keys in strictly ascending order tell the documents apart. */
  lemma AscendingKeysDiffer(documents: seq<Document>)
    requires Ascending(KeyList(documents), ByteOrder)
    ensures DistinctKeys(documents)
  {
    AscendingDistinct(KeyList(documents), ByteOrder);
    forall i, j | 0 <= i < j < |documents|
      ensures documents[i].key != documents[j].key
    {
      assert ByteOrder(KeyList(documents)[i]) != ByteOrder(KeyList(documents)[j]);
    }
  }

  /** Validation first, then the merge: no precondition is left. */
  method PrepareOrigins(documents: seq<Document>, root: Bytes) returns (r: Result<seq<Bytes>, OriginError>)
    ensures r == Err(BadKeys) <==> !GoodKeys(KeyList(documents), root)
    ensures r == Err(Malformed) <==> GoodKeys(KeyList(documents), root) && !AllValid(documents)
    ensures r == Err(NotUnique) <==>
            GoodKeys(KeyList(documents), root) && AllValid(documents) && !Distinct(AllRows(documents))
    ensures r.Ok? ==> multiset(r.value) == multiset(AllRows(documents)) && Distinct(r.value)
    ensures r.Ok? ==> InOriginOrder(r.value, documents)
  {
    var ok := ValidateDocumentKeys(KeyList(documents), root);
    if !ok {
      return Err(BadKeys);
    }
    AscendingKeysDiffer(documents);
    r := MergeClosureOrigins(documents);
  }
}
