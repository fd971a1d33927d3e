/** Freezing a builder: the tables are sorted, references are renumbered, and what comes out
    depends only on what was interned, not on the order of interning. */
module ArenaFreeze {
  import opened Ordering
  import opened InternTable
  import opened ArenaBuilder

  // ----- Frozen tables

  datatype FrozenRow = FrozenRow(category: nat, bytes: Bytes)

  datatype FrozenIdentity = FrozenIdentity(document: nat, key: AnonymousKey)

  datatype Frozen = Frozen(
    rows: seq<FrozenRow>,
    sequences: seq<SequenceKey>,
    documents: seq<Scope>,
    anonymous: seq<FrozenIdentity>)

  function RowOrder(row: FrozenRow): seq<int> { row.bytes }

  function SequenceOrder(key: SequenceKey): seq<int>
  {
    [if key.kind == Ordered then 0 else 1] + key.elements
  }

  function ScopeOrder(scope: Scope): seq<int> { scope }

  /** Scopes have one width, so this is the order by scope and then by local key. */
  function IdentityOrder(identity: FrozenIdentity): seq<int> { identity.key.scope + identity.key.localKey }

  // ----- What the tables stand for

  /** A sequence as the row bytes it lists. */
  datatype Meaning = Meaning(kind: SequenceKind, rows: seq<Bytes>)

  ghost function Means(rows: Rows, key: SequenceKey): Meaning
  {
    Meaning(key.kind, seq(|key.elements|, i requires 0 <= i < |key.elements| => RowKey(rows, key.elements[i])))
  }

  function FrozenBytes(rows: seq<FrozenRow>, id: nat): Bytes
  {
    if id < |rows| then rows[id].bytes else []
  }

  ghost function FrozenMeans(rows: seq<FrozenRow>, key: SequenceKey): Meaning
  {
    Meaning(key.kind, seq(|key.elements|, i requires 0 <= i < |key.elements| => FrozenBytes(rows, key.elements[i])))
  }

  /** Everything interned, as sets. */
  datatype Content = Content(rows: set<Bytes>, sequences: set<Meaning>, scopes: set<Scope>,
                             identities: set<AnonymousKey>)

  ghost function KeySet<K, P>(drafts: seq<Draft<K, P>>): set<K>
  {
    set d | d in drafts :: d.key
  }

  ghost function ContentOf(rows: Rows, sequences: Sequences, documents: Documents, anonymous: Anonymous): Content
  {
    Content(KeySet(rows), set d | d in sequences :: Means(rows, d.key), KeySet(documents), KeySet(anonymous))
  }

  ghost predicate RowsFreeze(rows: seq<FrozenRow>, scan: Bytes -> Option<nat>, bytes: set<Bytes>)
  {
    && Ascending(rows, RowOrder)
    && (set row | row in rows :: row.bytes) == bytes
    && forall row | row in rows :: scan(row.bytes) == Some(row.category)
  }

  ghost predicate SequencesFreeze(rows: seq<FrozenRow>, sequences: seq<SequenceKey>, meanings: set<Meaning>)
  {
    && Ascending(sequences, SequenceOrder)
    && (forall key | key in sequences :: forall e | e in key.elements :: e < |rows|)
    && (set key | key in sequences :: FrozenMeans(rows, key)) == meanings
  }

  ghost predicate DocumentsFreeze(documents: seq<Scope>, scopes: set<Scope>)
  {
    Ascending(documents, ScopeOrder) && Elements(documents) == scopes
  }

  ghost predicate AnonymousFreeze(documents: seq<Scope>, anonymous: seq<FrozenIdentity>, keys: set<AnonymousKey>)
  {
    && Ascending(anonymous, IdentityOrder)
    && (set identity | identity in anonymous :: identity.key) == keys
    && forall identity | identity in anonymous ::
         identity.document < |documents| && documents[identity.document] == identity.key.scope
  }

  /** Frozen tables of a content: strictly sorted, listing exactly what was interned, with every
      reference to the row or document it stood for. */
  ghost predicate IsFrozen(f: Frozen, scan: Bytes -> Option<nat>, content: Content)
  {
    && RowsFreeze(f.rows, scan, content.rows)
    && SequencesFreeze(f.rows, f.sequences, content.sequences)
    && DocumentsFreeze(f.documents, content.scopes)
    && AnonymousFreeze(f.documents, f.anonymous, content.identities)
  }

  // ----- The order of the tables

  /** Sequences come before canonical sets, and each by their element numbers. */
  ghost predicate SequenceBefore(x: SequenceKey, y: SequenceKey)
  {
    (x.kind == Ordered && y.kind == CanonicalSet) || (x.kind == y.kind && Before(x.elements, y.elements))
  }

  ghost predicate IdentityBefore(x: FrozenIdentity, y: FrozenIdentity)
  {
    || Before(x.key.scope, y.key.scope)
    || (x.key.scope == y.key.scope && Before(x.key.localKey, y.key.localKey))
  }

  lemma SequenceOrdered(x: SequenceKey, y: SequenceKey)
    ensures LexLess(SequenceOrder(x), SequenceOrder(y)) <==> SequenceBefore(x, y)
  {
    LexTuple([if x.kind == Ordered then 0 else 1], [if y.kind == Ordered then 0 else 1], x.elements, y.elements);
    LexByDifference(x.elements, y.elements);
  }

  lemma IdentityOrdered(x: FrozenIdentity, y: FrozenIdentity)
    ensures LexLess(IdentityOrder(x), IdentityOrder(y)) <==> IdentityBefore(x, y)
  {
    LexTuple(x.key.scope, y.key.scope, x.key.localKey, y.key.localKey);
    LexByDifference(x.key.scope, y.key.scope);
    LexByDifference(x.key.localKey, y.key.localKey);
  }

  /** Frozen rows are in the order of their bytes, sequences by kind and element numbers, documents
      by scope, and identities by scope and local key. */
  lemma FrozenOrdered(f: Frozen, scan: Bytes -> Option<nat>, content: Content)
    requires IsFrozen(f, scan, content)
    ensures forall i, j | 0 <= i < j < |f.rows| :: Before(f.rows[i].bytes, f.rows[j].bytes)
    ensures forall i, j | 0 <= i < j < |f.sequences| :: SequenceBefore(f.sequences[i], f.sequences[j])
    ensures forall i, j | 0 <= i < j < |f.documents| :: Before(f.documents[i], f.documents[j])
    ensures forall i, j | 0 <= i < j < |f.anonymous| :: IdentityBefore(f.anonymous[i], f.anonymous[j])
  {
    forall i, j | 0 <= i < j < |f.rows|
      ensures Before(f.rows[i].bytes, f.rows[j].bytes)
    {
      LexByDifference(f.rows[i].bytes, f.rows[j].bytes);
    }
    forall i, j | 0 <= i < j < |f.sequences|
      ensures SequenceBefore(f.sequences[i], f.sequences[j])
    {
      SequenceOrdered(f.sequences[i], f.sequences[j]);
    }
    forall i, j | 0 <= i < j < |f.documents|
      ensures Before(f.documents[i], f.documents[j])
    {
      LexByDifference(f.documents[i], f.documents[j]);
    }
    forall i, j | 0 <= i < j < |f.anonymous|
      ensures IdentityBefore(f.anonymous[i], f.anonymous[j])
    {
      IdentityOrdered(f.anonymous[i], f.anonymous[j]);
    }
  }

  // ----- The content decides

  lemma RowsUnique(f: seq<FrozenRow>, g: seq<FrozenRow>, scan: Bytes -> Option<nat>, bytes: set<Bytes>)
    requires RowsFreeze(f, scan, bytes) && RowsFreeze(g, scan, bytes)
    ensures f == g
  {
    forall row
      ensures row in f <==> row in g
    {
      RowIn(f, g, scan, bytes, row);
      RowIn(g, f, scan, bytes, row);
    }
    AscendingUnique(f, g, RowOrder);
  }

  lemma RowIn(f: seq<FrozenRow>, g: seq<FrozenRow>, scan: Bytes -> Option<nat>, bytes: set<Bytes>, row: FrozenRow)
    requires RowsFreeze(f, scan, bytes) && RowsFreeze(g, scan, bytes)
    ensures row in f ==> row in g
  {
    if row in f {
      assert row.bytes in bytes;
      var other :| other in g && other.bytes == row.bytes;
    }
  }

  lemma MeansInjective(rows: seq<FrozenRow>, x: SequenceKey, y: SequenceKey)
    requires Ascending(rows, RowOrder) && FrozenMeans(rows, x) == FrozenMeans(rows, y)
    requires forall e | e in x.elements :: e < |rows|
    requires forall e | e in y.elements :: e < |rows|
    ensures x == y
  {
    var a, b := FrozenMeans(rows, x).rows, FrozenMeans(rows, y).rows;
    forall i | 0 <= i < |x.elements|
      ensures x.elements[i] == y.elements[i]
    {
      assert a[i] == b[i];
      assert x.elements[i] in x.elements && y.elements[i] in y.elements;
      AscendingDistinct(rows, RowOrder);
    }
  }

  lemma SequenceIn(rows: seq<FrozenRow>, f: seq<SequenceKey>, g: seq<SequenceKey>, meanings: set<Meaning>,
                   key: SequenceKey)
    requires Ascending(rows, RowOrder)
    requires SequencesFreeze(rows, f, meanings) && SequencesFreeze(rows, g, meanings)
    ensures key in f ==> key in g
  {
    if key in f {
      assert FrozenMeans(rows, key) in meanings;
      var other :| other in g && FrozenMeans(rows, other) == FrozenMeans(rows, key);
      MeansInjective(rows, key, other);
    }
  }

  lemma SequencesUnique(rows: seq<FrozenRow>, f: seq<SequenceKey>, g: seq<SequenceKey>, meanings: set<Meaning>)
    requires Ascending(rows, RowOrder)
    requires SequencesFreeze(rows, f, meanings) && SequencesFreeze(rows, g, meanings)
    ensures f == g
  {
    forall key
      ensures key in f <==> key in g
    {
      SequenceIn(rows, f, g, meanings, key);
      SequenceIn(rows, g, f, meanings, key);
    }
    AscendingUnique(f, g, SequenceOrder);
  }

  lemma IdentityIn(documents: seq<Scope>, f: seq<FrozenIdentity>, g: seq<FrozenIdentity>, keys: set<AnonymousKey>,
                   x: FrozenIdentity)
    requires Ascending(documents, ScopeOrder)
    requires AnonymousFreeze(documents, f, keys) && AnonymousFreeze(documents, g, keys)
    ensures x in f ==> x in g
  {
    if x in f {
      assert x.key in keys;
      var other :| other in g && other.key == x.key;
      AscendingDistinct(documents, ScopeOrder);
    }
  }

  lemma AnonymousUnique(documents: seq<Scope>, f: seq<FrozenIdentity>, g: seq<FrozenIdentity>, keys: set<AnonymousKey>)
    requires Ascending(documents, ScopeOrder)
    requires AnonymousFreeze(documents, f, keys) && AnonymousFreeze(documents, g, keys)
    ensures f == g
  {
    forall x
      ensures x in f <==> x in g
    {
      IdentityIn(documents, f, g, keys, x);
      IdentityIn(documents, g, f, keys, x);
    }
    AscendingUnique(f, g, IdentityOrder);
  }

  /** Builders with the same content freeze to the same tables, whatever the order of interning. */
  lemma FrozenUnique(f: Frozen, g: Frozen, scan: Bytes -> Option<nat>, content: Content)
    requires IsFrozen(f, scan, content) && IsFrozen(g, scan, content)
    ensures f == g
  {
    RowsUnique(f.rows, g.rows, scan, content.rows);
    SequencesUnique(f.rows, f.sequences, g.sequences, content.sequences);
    forall scope
      ensures scope in f.documents <==> scope in g.documents
    {
      assert scope in f.documents <==> scope in Elements(f.documents);
      assert scope in g.documents <==> scope in Elements(g.documents);
    }
    AscendingUnique(f.documents, g.documents, ScopeOrder);
    AnonymousUnique(f.documents, f.anonymous, g.anonymous, content.identities);
  }

  // ----- Renumbering

  lemma DensePermuted<K, P>(drafts: seq<Draft<K, P>>, sorted: seq<Draft<K, P>>)
    requires Dense(drafts) && multiset(sorted) == multiset(drafts)
    ensures |sorted| == |drafts| && forall d :: d in sorted <==> d in drafts
    ensures forall d | d in sorted :: d.identifier < |drafts| && drafts[d.identifier] == d
    ensures forall i, j | 0 <= i < j < |sorted| ::
              sorted[i].identifier != sorted[j].identifier && sorted[i].key != sorted[j].key
  {
    PermutationElements(sorted, drafts);
    DenseAt(drafts);
    PermutationDistinct(drafts, sorted);
    forall i, j | 0 <= i < j < |sorted|
      ensures sorted[i].identifier != sorted[j].identifier && sorted[i].key != sorted[j].key
    {
      assert sorted[i] in sorted && sorted[j] in sorted;
    }
  }

  ghost predicate Renumbers<K, P>(drafts: seq<Draft<K, P>>, sorted: seq<Draft<K, P>>, remap: seq<nat>)
  {
    |remap| == |drafts| && forall id | 0 <= id < |drafts| :: remap[id] < |sorted| && sorted[remap[id]] == drafts[id]
  }

  /** The new number of every draft, by its old one. */
  method Renumber<K, P>(ghost drafts: seq<Draft<K, P>>, sorted: seq<Draft<K, P>>) returns (remap: seq<nat>)
    requires Dense(drafts) && multiset(sorted) == multiset(drafts)
    ensures Renumbers(drafts, sorted, remap)
  {
    DensePermuted(drafts, sorted);
    var numbers := new nat[|sorted|](_ => 0);
    for k := 0 to |sorted|
      invariant forall j | 0 <= j < k :: sorted[j].identifier < |sorted| && numbers[sorted[j].identifier] == j
    {
      assert sorted[k] in sorted;
      numbers[sorted[k].identifier] := k;
    }
    remap := numbers[..];
    forall id | 0 <= id < |drafts|
      ensures remap[id] < |sorted| && sorted[remap[id]] == drafts[id]
    {
      assert drafts[id] in sorted;
      var k :| 0 <= k < |sorted| && sorted[k] == drafts[id];
      DenseAt(drafts);
    }
  }

  // ----- Rows

  function DraftOrder(d: Draft<Bytes, nat>): seq<int> { d.key }

  function FreezeRow(d: Draft<Bytes, nat>): FrozenRow { FrozenRow(d.payload, d.key) }

  lemma {:induction false} ScannedAt(rows: Rows, scan: Bytes -> Option<nat>, d: Draft<Bytes, nat>)
    requires Scanned(rows, scan) && d in rows
    ensures scan(d.key) == Some(d.payload)
  {
    if d != rows[|rows| - 1] {
      ScannedAt(rows[..|rows| - 1], scan, d);
    }
  }

  /** Row `k` of the frozen table is draft `k` of the sorted one. */
  ghost predicate FrozenFrom(frozen: seq<FrozenRow>, sorted: Rows)
  {
    |frozen| == |sorted| && forall k | 0 <= k < |sorted| :: frozen[k] == FreezeRow(sorted[k])
  }

  lemma SortedRowsFreeze(rows: Rows, sorted: Rows, frozen: seq<FrozenRow>, scan: Bytes -> Option<nat>)
    requires Dense(rows) && Scanned(rows, scan) && multiset(sorted) == multiset(rows) && SortedBy(sorted, DraftOrder)
    requires FrozenFrom(frozen, sorted)
    ensures RowsFreeze(frozen, scan, KeySet(rows))
  {
    DensePermuted(rows, sorted);
    SortedDistinctAscending(sorted, DraftOrder);
    forall i, j | 0 <= i < j < |frozen|
      ensures LexLess(RowOrder(frozen[i]), RowOrder(frozen[j]))
    {
      assert LexLess(DraftOrder(sorted[i]), DraftOrder(sorted[j]));
    }
    forall row | row in frozen
      ensures scan(row.bytes) == Some(row.category) && row.bytes in KeySet(rows)
    {
      var k :| 0 <= k < |frozen| && frozen[k] == row;
      assert sorted[k] in rows;
      ScannedAt(rows, scan, sorted[k]);
    }
    forall d | d in rows
      ensures d.key in set row | row in frozen :: row.bytes
    {
      assert d in sorted;
      var k :| 0 <= k < |sorted| && sorted[k] == d;
      assert frozen[k] in frozen;
    }
  }

  method FreezeRows(sorted: Rows) returns (frozen: seq<FrozenRow>)
    ensures FrozenFrom(frozen, sorted)
  {
    frozen := [];
    for k := 0 to |sorted|
      invariant FrozenFrom(frozen, sorted[..k])
    {
      frozen := frozen + [FreezeRow(sorted[k])];
    }
    assert sorted[..|sorted|] == sorted;
  }

  // ----- Sequences

  /** Renumbering follows the order of the row bytes. */
  lemma RenumberOrder(rows: Rows, sorted: Rows, remap: seq<nat>, x: nat, y: nat)
    requires Renumbers(rows, sorted, remap) && SortedBy(sorted, DraftOrder)
    requires x < |rows| && y < |rows| && LexLess(RowKey(rows, x), RowKey(rows, y))
    ensures remap[x] < remap[y]
  {
    var i, j := remap[x], remap[y];
    LexAsymmetric(rows[x].key, rows[y].key);
    assert sorted[i] == rows[x] && sorted[j] == rows[y];
    assert LexLess(DraftOrder(sorted[i]), DraftOrder(sorted[j]));
  }

  /** Renumbered, a canonical set is already strictly ascending, so that sorting and deduplicating
      it again changes nothing. */
  lemma ResortIsIdentity(elements: seq<nat>, sorted: seq<nat>)
    requires multiset(sorted) == multiset(elements) && SortedBy(sorted, IdKey)
    requires Ascending(elements, IdKey)
    ensures DedupBy(sorted, IdKey) == elements
  {
    DedupElements(sorted, IdKey);
    PermutationElements(sorted, elements);
    AscendingUnique(DedupBy(sorted, IdKey), elements, IdKey);
  }

  ghost predicate RemappedTo(rows: Rows, frozen: seq<FrozenRow>, key: SequenceKey, now: SequenceKey)
  {
    && now.kind == key.kind && |now.elements| == |key.elements|
    && (forall e | e in now.elements :: e < |frozen|)
    && FrozenMeans(frozen, now) == Means(rows, key)
  }

  method RemapElements(rows: Rows, sorted: Rows, remap: seq<nat>, key: SequenceKey) returns (elements: seq<nat>)
    requires Renumbers(rows, sorted, remap) && Refers(rows, key) && SortedBy(sorted, DraftOrder)
    ensures |elements| == |key.elements|
    ensures forall i | 0 <= i < |elements| :: key.elements[i] < |remap| && elements[i] == remap[key.elements[i]]
    ensures key.kind == CanonicalSet ==> Ascending(elements, IdKey)
  {
    elements := [];
    for i := 0 to |key.elements|
      invariant |elements| == i
      invariant forall j | 0 <= j < i :: key.elements[j] < |remap| && elements[j] == remap[key.elements[j]]
    {
      assert key.elements[i] in key.elements;
      elements := elements + [remap[key.elements[i]]];
    }
    if key.kind == CanonicalSet {
      forall i, j | 0 <= i < j < |elements|
        ensures LexLess(IdKey(elements[i]), IdKey(elements[j]))
      {
        RenumberOrder(rows, sorted, remap, key.elements[i], key.elements[j]);
      }
    }
  }

  lemma RemapMeans(rows: Rows, sorted: Rows, remap: seq<nat>, frozen: seq<FrozenRow>, key: SequenceKey,
                   now: SequenceKey)
    requires Renumbers(rows, sorted, remap) && FrozenFrom(frozen, sorted) && now.kind == key.kind
    requires |now.elements| == |key.elements|
    requires forall i | 0 <= i < |now.elements| ::
               key.elements[i] < |remap| && now.elements[i] == remap[key.elements[i]]
    ensures RemappedTo(rows, frozen, key, now)
  {
    forall i | 0 <= i < |now.elements|
      ensures now.elements[i] < |frozen| && FrozenBytes(frozen, now.elements[i]) == RowKey(rows, key.elements[i])
    {
      assert sorted[remap[key.elements[i]]] == rows[key.elements[i]];
    }
  }

  method RemapSequence(rows: Rows, sorted: Rows, remap: seq<nat>, ghost frozen: seq<FrozenRow>, key: SequenceKey)
    returns (now: SequenceKey)
    requires Renumbers(rows, sorted, remap) && Refers(rows, key) && SortedBy(sorted, DraftOrder)
    requires FrozenFrom(frozen, sorted)
    ensures RemappedTo(rows, frozen, key, now)
  {
    var elements := RemapElements(rows, sorted, remap, key);
    RemapMeans(rows, sorted, remap, frozen, key, SequenceKey(key.kind, elements));
    if key.kind == CanonicalSet {
      var again := Sort(elements, IdKey);
      ResortIsIdentity(elements, again);
      elements := DedupBy(again, IdKey);
    }
    now := SequenceKey(key.kind, elements);
  }

  ghost predicate AllRemapped(rows: Rows, frozen: seq<FrozenRow>, sequences: Sequences, keys: seq<SequenceKey>)
  {
    |keys| == |sequences| && forall i | 0 <= i < |keys| :: RemappedTo(rows, frozen, sequences[i].key, keys[i])
  }

  lemma {:induction false} ReferAt(rows: Rows, sequences: Sequences, i: nat)
    requires SequencesRefer(rows, sequences) && i < |sequences|
    ensures Refers(rows, sequences[i].key)
    decreases |sequences|
  {
    if i < |sequences| - 1 {
      ReferAt(rows, sequences[..|sequences| - 1], i);
    }
  }

  method RemapSequences(rows: Rows, sorted: Rows, remap: seq<nat>, ghost frozen: seq<FrozenRow>, sequences: Sequences)
    returns (keys: seq<SequenceKey>)
    requires Renumbers(rows, sorted, remap) && SequencesRefer(rows, sequences) && SortedBy(sorted, DraftOrder)
    requires FrozenFrom(frozen, sorted)
    ensures AllRemapped(rows, frozen, sequences, keys)
  {
    keys := [];
    for i := 0 to |sequences|
      invariant AllRemapped(rows, frozen, sequences[..i], keys)
    {
      ReferAt(rows, sequences, i);
      var key := RemapSequence(rows, sorted, remap, frozen, sequences[i].key);
      keys := keys + [key];
    }
    assert sequences[..|sequences|] == sequences;
  }

  lemma DraftMeansInjective(rows: Rows, x: SequenceKey, y: SequenceKey)
    requires Dense(rows) && KnownRows(rows, x.elements) && KnownRows(rows, y.elements)
    requires Means(rows, x) == Means(rows, y)
    ensures x == y
  {
    var a, b := Means(rows, x).rows, Means(rows, y).rows;
    DenseAt(rows);
    forall i | 0 <= i < |x.elements|
      ensures x.elements[i] == y.elements[i]
    {
      assert a[i] == b[i];
      assert x.elements[i] in x.elements && y.elements[i] in y.elements;
    }
  }

  lemma RemappedDistinct(rows: Rows, frozen: seq<FrozenRow>, sequences: Sequences, keys: seq<SequenceKey>)
    requires Dense(rows) && Dense(sequences) && SequencesRefer(rows, sequences)
    requires AllRemapped(rows, frozen, sequences, keys)
    ensures Distinct(keys)
  {
    forall i, j | 0 <= i < j < |keys|
      ensures keys[i] != keys[j]
    {
      ReferAt(rows, sequences, i);
      ReferAt(rows, sequences, j);
      DenseAt(sequences);
      if keys[i] == keys[j] {
        DraftMeansInjective(rows, sequences[i].key, sequences[j].key);
      }
    }
  }

  lemma SequenceOrderInjective(x: SequenceKey, y: SequenceKey)
    requires SequenceOrder(x) == SequenceOrder(y)
    ensures x == y
  {
    assert SequenceOrder(x)[1..] == x.elements && SequenceOrder(y)[1..] == y.elements;
    assert SequenceOrder(x)[0] == SequenceOrder(y)[0];
  }

  lemma RemappedMeanings(rows: Rows, frozen: seq<FrozenRow>, sequences: Sequences, keys: seq<SequenceKey>,
                         sorted: seq<SequenceKey>)
    requires AllRemapped(rows, frozen, sequences, keys) && multiset(sorted) == multiset(keys)
    ensures (set key | key in sorted :: FrozenMeans(frozen, key)) == set d | d in sequences :: Means(rows, d.key)
    ensures forall key | key in sorted :: forall e | e in key.elements :: e < |frozen|
  {
    PermutationElements(sorted, keys);
    forall key | key in sorted
      ensures exists d :: d in sequences && Means(rows, d.key) == FrozenMeans(frozen, key)
      ensures forall e | e in key.elements :: e < |frozen|
    {
      var i :| 0 <= i < |keys| && keys[i] == key;
      assert RemappedTo(rows, frozen, sequences[i].key, keys[i]);
      assert sequences[i] in sequences;
    }
    forall d | d in sequences
      ensures exists key :: key in sorted && FrozenMeans(frozen, key) == Means(rows, d.key)
    {
      var i :| 0 <= i < |sequences| && sequences[i] == d;
      assert RemappedTo(rows, frozen, sequences[i].key, keys[i]);
      assert keys[i] in sorted;
    }
  }

  lemma SortedSequencesFreeze(rows: Rows, frozen: seq<FrozenRow>, sequences: Sequences, keys: seq<SequenceKey>,
                              sorted: seq<SequenceKey>)
    requires Dense(rows) && Dense(sequences) && SequencesRefer(rows, sequences)
    requires AllRemapped(rows, frozen, sequences, keys)
    requires multiset(sorted) == multiset(keys) && SortedBy(sorted, SequenceOrder)
    ensures SequencesFreeze(frozen, sorted, set d | d in sequences :: Means(rows, d.key))
  {
    RemappedDistinct(rows, frozen, sequences, keys);
    PermutationDistinct(keys, sorted);
    forall i, j | 0 <= i < j < |sorted|
      ensures SequenceOrder(sorted[i]) != SequenceOrder(sorted[j])
    {
      if SequenceOrder(sorted[i]) == SequenceOrder(sorted[j]) {
        SequenceOrderInjective(sorted[i], sorted[j]);
      }
    }
    SortedDistinctAscending(sorted, SequenceOrder);
    RemappedMeanings(rows, frozen, sequences, keys, sorted);
  }

  // ----- Documents and anonymous identities

  function DocumentOrder(d: Draft<Scope, ()>): seq<int> { d.key }

  ghost predicate ScopesFrom(frozen: seq<Scope>, sorted: Documents)
  {
    |frozen| == |sorted| && forall k | 0 <= k < |sorted| :: frozen[k] == sorted[k].key
  }

  method FreezeDocuments(sorted: Documents) returns (frozen: seq<Scope>)
    ensures ScopesFrom(frozen, sorted)
  {
    frozen := [];
    for k := 0 to |sorted|
      invariant ScopesFrom(frozen, sorted[..k])
    {
      frozen := frozen + [sorted[k].key];
    }
    assert sorted[..|sorted|] == sorted;
  }

  lemma SortedDocumentsFreeze(documents: Documents, sorted: Documents, frozen: seq<Scope>)
    requires Dense(documents) && multiset(sorted) == multiset(documents) && SortedBy(sorted, DocumentOrder)
    requires ScopesFrom(frozen, sorted)
    ensures DocumentsFreeze(frozen, KeySet(documents))
  {
    DensePermuted(documents, sorted);
    SortedDistinctAscending(sorted, DocumentOrder);
    forall i, j | 0 <= i < j < |frozen|
      ensures LexLess(ScopeOrder(frozen[i]), ScopeOrder(frozen[j]))
    {
      assert LexLess(DocumentOrder(sorted[i]), DocumentOrder(sorted[j]));
    }
    forall scope
      ensures scope in Elements(frozen) <==> scope in KeySet(documents)
    {
      if scope in frozen {
        var k :| 0 <= k < |frozen| && frozen[k] == scope;
        assert sorted[k] in documents;
      }
      if scope in KeySet(documents) {
        var d :| d in documents && d.key == scope;
        assert d in sorted;
        var k :| 0 <= k < |sorted| && sorted[k] == d;
        assert frozen[k] in frozen;
      }
    }
  }

  lemma {:induction false} ResidesAt(documents: Documents, anonymous: Anonymous, i: nat)
    requires AnonymousReside(documents, anonymous) && i < |anonymous|
    ensures Resides(documents, anonymous[i])
    decreases |anonymous|
  {
    if i < |anonymous| - 1 {
      ResidesAt(documents, anonymous[..|anonymous| - 1], i);
    }
  }

  ghost predicate Moved(frozen: seq<Scope>, anonymous: Anonymous, identities: seq<FrozenIdentity>)
  {
    && |identities| == |anonymous|
    && forall i | 0 <= i < |identities| ::
         && identities[i].key == anonymous[i].key
         && identities[i].document < |frozen| && frozen[identities[i].document] == identities[i].key.scope
  }

  method MoveIdentities(documents: Documents, sorted: Documents, remap: seq<nat>, ghost frozen: seq<Scope>,
                        anonymous: Anonymous)
    returns (identities: seq<FrozenIdentity>)
    requires Renumbers(documents, sorted, remap) && ScopesFrom(frozen, sorted) && AnonymousReside(documents, anonymous)
    ensures Moved(frozen, anonymous, identities)
  {
    identities := [];
    for i := 0 to |anonymous|
      invariant Moved(frozen, anonymous[..i], identities)
    {
      ResidesAt(documents, anonymous, i);
      assert sorted[remap[anonymous[i].payload]] == documents[anonymous[i].payload];
      identities := identities + [FrozenIdentity(remap[anonymous[i].payload], anonymous[i].key)];
    }
    assert anonymous[..|anonymous|] == anonymous;
  }

  lemma IdentityOrderInjective(x: FrozenIdentity, y: FrozenIdentity)
    requires IdentityOrder(x) == IdentityOrder(y)
    ensures x.key == y.key
  {
    assert IdentityOrder(x)[..32] == x.key.scope && IdentityOrder(y)[..32] == y.key.scope;
    assert IdentityOrder(x)[32..] == x.key.localKey && IdentityOrder(y)[32..] == y.key.localKey;
  }

  lemma MovedDistinct(frozen: seq<Scope>, anonymous: Anonymous, identities: seq<FrozenIdentity>,
                      sorted: seq<FrozenIdentity>)
    requires Dense(anonymous) && Moved(frozen, anonymous, identities)
    requires multiset(sorted) == multiset(identities) && SortedBy(sorted, IdentityOrder)
    ensures Ascending(sorted, IdentityOrder)
  {
    DenseAt(anonymous);
    PermutationElements(sorted, identities);
    assert Distinct(identities);
    PermutationDistinct(identities, sorted);
    forall i, j | 0 <= i < j < |sorted|
      ensures IdentityOrder(sorted[i]) != IdentityOrder(sorted[j])
    {
      assert sorted[i] in identities && sorted[j] in identities;
      if IdentityOrder(sorted[i]) == IdentityOrder(sorted[j]) {
        IdentityOrderInjective(sorted[i], sorted[j]);
      }
    }
    SortedDistinctAscending(sorted, IdentityOrder);
  }

  lemma SortedAnonymousFreeze(frozen: seq<Scope>, anonymous: Anonymous, identities: seq<FrozenIdentity>,
                              sorted: seq<FrozenIdentity>)
    requires Dense(anonymous) && Moved(frozen, anonymous, identities)
    requires multiset(sorted) == multiset(identities) && SortedBy(sorted, IdentityOrder)
    ensures AnonymousFreeze(frozen, sorted, KeySet(anonymous))
  {
    MovedDistinct(frozen, anonymous, identities, sorted);
    MovedKeys(frozen, anonymous, identities, sorted);
  }

  lemma MovedKeys(frozen: seq<Scope>, anonymous: Anonymous, identities: seq<FrozenIdentity>,
                  sorted: seq<FrozenIdentity>)
    requires Moved(frozen, anonymous, identities) && multiset(sorted) == multiset(identities)
    ensures forall x | x in sorted :: x.document < |frozen| && frozen[x.document] == x.key.scope
    ensures (set x | x in sorted :: x.key) == KeySet(anonymous)
  {
    PermutationElements(sorted, identities);
    forall x | x in sorted
      ensures x.key in KeySet(anonymous) && x.document < |frozen| && frozen[x.document] == x.key.scope
    {
      var i :| 0 <= i < |identities| && identities[i] == x;
      assert anonymous[i] in anonymous;
    }
    forall d | d in anonymous
      ensures d.key in set x | x in sorted :: x.key
    {
      var i :| 0 <= i < |anonymous| && anonymous[i] == d;
      assert identities[i] in sorted;
    }
  }

  // ----- Retained bytes

  function FrozenRowSize(row: FrozenRow): nat { |row.bytes| }

  function KeySize(key: SequenceKey): nat { ID_BYTES * |key.elements| }

  function IdentitySize(identity: FrozenIdentity): nat { |identity.key.localKey| }

  lemma {:induction false} TotalSplit<T>(xs: seq<T>, ys: seq<T>, size: T -> nat)
    ensures Total(xs + ys, size) == Total(xs, size) + Total(ys, size)
    decreases |ys|
  {
    if ys == [] {
      assert xs + ys == xs;
    } else {
      assert (xs + ys)[..|xs + ys| - 1] == xs + ys[..|ys| - 1];
      TotalSplit(xs, ys[..|ys| - 1], size);
    }
  }

  lemma TotalBetween<T>(xs: seq<T>, x: T, ys: seq<T>, size: T -> nat)
    ensures Total(xs + [x] + ys, size) == Total(xs + ys, size) + size(x)
  {
    TotalSplit(xs, ys, size);
    TotalAppend(xs, size, x);
    TotalSplit(xs + [x], ys, size);
  }

  lemma AroundIndex<T>(xs: seq<T>, i: nat)
    requires i < |xs|
    ensures xs == xs[..i] + [xs[i]] + xs[i + 1..]
  {
  }

  lemma TotalRemove<T>(xs: seq<T>, i: nat, size: T -> nat)
    requires i < |xs|
    ensures Total(xs, size) == Total(xs[..i] + xs[i + 1..], size) + size(xs[i])
  {
    AroundIndex(xs, i);
    TotalBetween(xs[..i], xs[i], xs[i + 1..], size);
  }

  lemma {:induction false} TotalPermutation<T>(xs: seq<T>, ys: seq<T>, size: T -> nat)
    requires multiset(xs) == multiset(ys)
    ensures Total(xs, size) == Total(ys, size)
    decreases |xs|
  {
    PermutationElements(xs, ys);
    if xs != [] {
      var last := xs[|xs| - 1];
      assert last in ys;
      var i :| 0 <= i < |ys| && ys[i] == last;
      RemoveMultiset(xs, |xs| - 1);
      RemoveMultiset(ys, i);
      assert xs[..|xs| - 1] + xs[|xs|..] == xs[..|xs| - 1];
      TotalPermutation(xs[..|xs| - 1], ys[..i] + ys[i + 1..], size);
      TotalRemove(ys, i, size);
    }
  }

  lemma {:induction false} TotalPointwise<S, T>(xs: seq<S>, ys: seq<T>, size: S -> nat, count: T -> nat)
    requires |xs| == |ys| && forall i | 0 <= i < |xs| :: size(xs[i]) == count(ys[i])
    ensures Total(xs, size) == Total(ys, count)
  {
    if xs != [] {
      TotalPointwise(xs[..|xs| - 1], ys[..|ys| - 1], size, count);
    }
  }

  lemma {:induction false} TotalPrefix<T>(xs: seq<T>, size: T -> nat, k: nat)
    requires k <= |xs|
    ensures Total(xs[..k], size) <= Total(xs, size)
  {
    assert xs == xs[..k] + xs[k..];
    TotalSplit(xs[..k], xs[k..], size);
  }

  /** Add up what a table retains, minding 64-bit overflow. */
  method Retain<T>(start: nat, xs: seq<T>, size: T -> nat) returns (retained: Option<nat>)
    requires start < U64
    ensures retained == if start + Total(xs, size) < U64 then Some(start + Total(xs, size)) else None
  {
    var sum := start;
    for k := 0 to |xs|
      invariant sum == start + Total(xs[..k], size) < U64
    {
      assert xs[..k + 1] == xs[..k] + [xs[k]];
      TotalAppend(xs[..k], size, xs[k]);
      TotalPrefix(xs, size, k + 1);
      if sum + size(xs[k]) >= U64 {
        return None;
      }
      sum := sum + size(xs[k]);
    }
    assert xs[..|xs|] == xs;
    return Some(sum);
  }

  /** Freezing retains exactly the footprint of the drafts. */
  lemma SameFootprint(rows: Rows, sortedRows: Rows, frozenRows: seq<FrozenRow>,
                      sequences: Sequences, keys: seq<SequenceKey>, sortedKeys: seq<SequenceKey>,
                      frozen: seq<Scope>, anonymous: Anonymous, moved: seq<FrozenIdentity>,
                      sortedIdentities: seq<FrozenIdentity>)
    requires multiset(sortedRows) == multiset(rows) && FrozenFrom(frozenRows, sortedRows)
    requires AllRemapped(rows, frozenRows, sequences, keys) && multiset(sortedKeys) == multiset(keys)
    requires Moved(frozen, anonymous, moved) && multiset(sortedIdentities) == multiset(moved)
    ensures Total(frozenRows, FrozenRowSize) == Total(rows, RowSize)
    ensures Total(sortedKeys, KeySize) == Total(sequences, SequenceSize)
    ensures Total(sortedIdentities, IdentitySize) == Total(anonymous, AnonymousSize)
  {
    TotalPermutation(sortedRows, rows, RowSize);
    TotalPointwise(sortedRows, frozenRows, RowSize, FrozenRowSize);
    TotalPermutation(sortedKeys, keys, KeySize);
    TotalPointwise(sequences, keys, SequenceSize, KeySize);
    TotalPermutation(sortedIdentities, moved, IdentitySize);
    TotalPointwise(anonymous, moved, AnonymousSize, IdentitySize);
  }

  // ----- Freeze

  datatype Arena = Arena(tables: Frozen, peak: nat, retained: nat)

  function Metadata(sizes: Sizes, rows: nat, sequences: nat, documents: nat, anonymous: nat): nat
  {
    sizes.frozenRow * rows + sizes.frozenSequence * sequences + sizes.frozenDocument * documents
    + sizes.frozenAnonymous * anonymous
  }

  /** The tables of the arena, and the bytes they retain beside their metadata. */
  method FreezeTables(b: NativeArenaBuilder) returns (tables: Frozen)
    requires b.Valid()
    ensures IsFrozen(tables, b.scan, BuilderContent(b))
    ensures Total(tables.rows, FrozenRowSize) + Total(tables.sequences, KeySize) + Total(tables.anonymous, IdentitySize)
            == b.Footprint()
  {
    var rows, sequences := b.rows.drafts, b.sequences.drafts;
    var documents, anonymous := b.documents.drafts, b.anonymous.drafts;
    var sortedRows := Sort(rows, DraftOrder);
    var rowRemap := Renumber(rows, sortedRows);
    var frozenRows := FreezeRows(sortedRows);
    SortedRowsFreeze(rows, sortedRows, frozenRows, b.scan);
    var keys := RemapSequences(rows, sortedRows, rowRemap, frozenRows, sequences);
    var sortedKeys := Sort(keys, SequenceOrder);
    SortedSequencesFreeze(rows, frozenRows, sequences, keys, sortedKeys);
    var sortedDocuments := Sort(documents, DocumentOrder);
    var documentRemap := Renumber(documents, sortedDocuments);
    var scopes := FreezeDocuments(sortedDocuments);
    SortedDocumentsFreeze(documents, sortedDocuments, scopes);
    var moved := MoveIdentities(documents, sortedDocuments, documentRemap, scopes, anonymous);
    var identities := Sort(moved, IdentityOrder);
    SortedAnonymousFreeze(scopes, anonymous, moved, identities);
    SameFootprint(rows, sortedRows, frozenRows, sequences, keys, sortedKeys, scopes, anonymous, moved, identities);
    tables := Frozen(frozenRows, sortedKeys, scopes, identities);
  }

  /** Freezing charges two renumberings and the metadata, one after the other. */
  method ChargeFreeze(budget: Budget, rowBytes: nat, documentBytes: nat, metadata: nat) returns (after: Option<Budget>)
    requires budget.Sound()
    ensures after.Some? <==> budget.Plan(rowBytes + documentBytes + metadata).Some?
    ensures after.Some? ==>
              && after.value.Sound() && after.value.maximum == budget.maximum && after.value.peak >= budget.peak
              && after.value.used == budget.used + rowBytes + documentBytes + metadata
              && after.value.peak == if budget.peak < after.value.used then after.value.used else budget.peak
  {
    var next := budget.Plan(rowBytes);
    if next.None? {
      return None;
    }
    var one := budget.Commit(next.value);
    next := one.Plan(documentBytes);
    if next.None? {
      return None;
    }
    var two := one.Commit(next.value);
    next := two.Plan(metadata);
    if next.None? {
      return None;
    }
    return Some(two.Commit(next.value));
  }

  ghost function BuilderContent(b: NativeArenaBuilder): Content
    reads b
  {
    ContentOf(b.rows.drafts, b.sequences.drafts, b.documents.drafts, b.anonymous.drafts)
  }

  function BuilderMetadata(b: NativeArenaBuilder): nat
    reads b
  {
    Metadata(b.sizes, |b.rows.drafts|, |b.sequences.drafts|, |b.documents.drafts|, |b.anonymous.drafts|)
  }

  /** The use after freezing: an identifier for every row and document, and the frozen records. */
  function FrozenUse(b: NativeArenaBuilder): nat
    reads b
  {
    b.budget.used + (4 * |b.rows.drafts| + 4 * |b.documents.drafts|)
      + (b.sizes.frozenRow * |b.rows.drafts| + b.sizes.frozenSequence * |b.sequences.drafts|
         + b.sizes.frozenDocument * |b.documents.drafts| + b.sizes.frozenAnonymous * |b.anonymous.drafts|)
  }

  /** A frozen arena depends only on the content of its builder. Its peak is within the maximum
      and covers what it retains; freezing fails only for want of memory. */
  method Freeze(b: NativeArenaBuilder, allocates: bool) returns (arena: Option<Arena>)
    requires b.Valid()
    ensures arena.Some? ==> IsFrozen(arena.value.tables, b.scan, BuilderContent(b))
    ensures arena.Some? ==> arena.value.retained == b.Footprint() + BuilderMetadata(b) <= arena.value.peak
    ensures arena.Some? ==> b.budget.peak <= arena.value.peak < U64
    ensures arena.Some? ==> arena.value.peak == if b.budget.peak < FrozenUse(b) then FrozenUse(b) else b.budget.peak
    ensures arena.Some? && b.budget.maximum.Some? ==> arena.value.peak <= b.budget.maximum.value
    ensures arena.Some? <==>
              && allocates && FrozenUse(b) < U64
              && (b.budget.maximum.Some? ==> FrozenUse(b) <= b.budget.maximum.value)
  {
    var metadata := BuilderMetadata(b);
    var budget := ChargeFreeze(b.budget, ID_BYTES * |b.rows.drafts|, ID_BYTES * |b.documents.drafts|, metadata);
    if budget.None? || !allocates {
      return None;
    }
    var tables := FreezeTables(b);
    var retained := RetainTables(tables, metadata, b.Footprint());
    return Some(Arena(tables, budget.value.peak, retained));
  }

  /** The retained bytes are within the accounted use, so that adding them up cannot overflow. */
  method RetainTables(tables: Frozen, metadata: nat, ghost footprint: nat) returns (retained: nat)
    requires footprint == Total(tables.rows, FrozenRowSize) + Total(tables.sequences, KeySize)
                          + Total(tables.anonymous, IdentitySize)
    requires footprint + metadata < U64
    ensures retained == footprint + metadata
  {
    var rows := Retain(0, tables.rows, FrozenRowSize);
    var sequences := Retain(rows.value, tables.sequences, KeySize);
    var anonymous := Retain(sequences.value, tables.anonymous, IdentitySize);
    retained := anonymous.value + metadata;
  }
}
