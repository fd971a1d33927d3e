/** The builder of a native arena: four interning tables under one memory budget. */
module ArenaBuilder {
  import opened Ordering
  import opened InternTable

  // ----- The budget

  datatype Budget = Budget(maximum: Option<nat>, used: nat, peak: nat) {
    /** The use after an allocation, if it is within bounds. */
    function Plan(additional: nat): Option<nat>
    {
      var next := used + additional;
      if next >= U64 || (maximum.Some? && next > maximum.value) then None else Some(next)
    }

    function Commit(next: nat): Budget
    {
      Budget(maximum, next, if peak < next then next else peak)
    }

    predicate Sound()
    {
      used <= peak < U64 && (maximum.Some? ==> peak <= maximum.value)
    }
  }

  lemma CommitPlan(b: Budget, additional: nat)
    requires b.Sound() && b.Plan(additional).Some?
    ensures var now := b.Commit(b.Plan(additional).value);
      now.Sound() && now.used == b.used + additional && now.maximum == b.maximum && now.peak >= b.peak
  {
  }

  // ----- Keys and sizes

  datatype SequenceKind = Ordered | CanonicalSet

  datatype SequenceKey = SequenceKey(kind: SequenceKind, elements: seq<nat>)

  type Scope = s: Bytes | |s| == 32 witness seq(32, _ => 0)

  datatype AnonymousKey = AnonymousKey(scope: Scope, localKey: Bytes)

  type Rows = seq<Draft<Bytes, nat>>
  type Sequences = seq<Draft<SequenceKey, ()>>
  type Documents = seq<Draft<Scope, ()>>
  type Anonymous = seq<Draft<AnonymousKey, nat>>

  /** An identifier takes four bytes. */
  const ID_BYTES: nat := 4

  /** The sizes of the other records, and the limits of the builder. */
  datatype Sizes = Sizes(row: nat, sequence: nat, document: nat, anonymous: nat,
                         frozenRow: nat, frozenSequence: nat, frozenDocument: nat, frozenAnonymous: nat) {
    /** What a new draft costs. */
    function RowCost(data: Bytes): nat { |data| + row + ID_BYTES }

    function SequenceCost(elements: seq<nat>): nat { ID_BYTES * |elements| + sequence + ID_BYTES }

    function AnonymousCost(localKey: Bytes): nat { |localKey| + anonymous + ID_BYTES }
  }

  datatype Limits = Limits(rows: nat, sequences: nat, documents: nat, anonymous: nat, arity: nat, localKeyBytes: nat)

  function RowSize(d: Draft<Bytes, nat>): nat { |d.key| }

  function SequenceSize(d: Draft<SequenceKey, ()>): nat { ID_BYTES * |d.key.elements| }

  function AnonymousSize(d: Draft<AnonymousKey, nat>): nat { |d.key.localKey| }

  ghost function Total<T>(xs: seq<T>, size: T -> nat): nat
  {
    if xs == [] then 0 else Total(xs[..|xs| - 1], size) + size(xs[|xs| - 1])
  }

  lemma TotalAppend<T>(xs: seq<T>, size: T -> nat, x: T)
    ensures Total(xs + [x], size) == Total(xs, size) + size(x)
  {
    assert (xs + [x])[..|xs|] == xs;
  }

  // ----- Validity

  function RowKey(rows: Rows, id: nat): Bytes
  {
    if id < |rows| then rows[id].key else []
  }

  predicate KnownRows(rows: Rows, elements: seq<nat>)
  {
    forall e | e in elements :: e < |rows|
  }

  ghost predicate AscendingRows(rows: Rows, elements: seq<nat>)
  {
    forall i, j | 0 <= i < j < |elements| :: LexLess(RowKey(rows, elements[i]), RowKey(rows, elements[j]))
  }

  /** Sequences refer to rows, and canonical sets list theirs in strictly ascending order. */
  ghost predicate Refers(rows: Rows, key: SequenceKey)
  {
    KnownRows(rows, key.elements) && (key.kind == CanonicalSet ==> AscendingRows(rows, key.elements))
  }

  ghost predicate Scanned(rows: Rows, scan: Bytes -> Option<nat>)
  {
    rows == [] || (Scanned(rows[..|rows| - 1], scan) && scan(rows[|rows| - 1].key) == Some(rows[|rows| - 1].payload))
  }

  ghost predicate SequencesRefer(rows: Rows, sequences: Sequences)
  {
    || sequences == []
    || (SequencesRefer(rows, sequences[..|sequences| - 1]) && Refers(rows, sequences[|sequences| - 1].key))
  }

  /** An anonymous identity knows the document that has its scope. */
  predicate Resides(documents: Documents, identity: Draft<AnonymousKey, nat>)
  {
    identity.payload < |documents| && documents[identity.payload].key == identity.key.scope
  }

  ghost predicate AnonymousReside(documents: Documents, anonymous: Anonymous)
  {
    || anonymous == []
    || (AnonymousReside(documents, anonymous[..|anonymous| - 1]) && Resides(documents, anonymous[|anonymous| - 1]))
  }

  lemma RefersExtends(was: Rows, now: Rows, key: SequenceKey)
    requires Refers(was, key) && was <= now
    ensures Refers(now, key)
  {
    assert forall e | e in key.elements :: RowKey(now, e) == RowKey(was, e);
  }

  lemma {:induction false} SequencesReferExtends(was: Rows, now: Rows, sequences: Sequences)
    requires SequencesRefer(was, sequences) && was <= now
    ensures SequencesRefer(now, sequences)
    decreases |sequences|
  {
    if sequences != [] {
      SequencesReferExtends(was, now, sequences[..|sequences| - 1]);
      RefersExtends(was, now, sequences[|sequences| - 1].key);
    }
  }

  lemma {:induction false} AnonymousResideExtends(was: Documents, now: Documents, anonymous: Anonymous)
    requires AnonymousReside(was, anonymous) && was <= now
    ensures AnonymousReside(now, anonymous)
    decreases |anonymous|
  {
    if anonymous != [] {
      AnonymousResideExtends(was, now, anonymous[..|anonymous| - 1]);
    }
  }

  // ----- The canonical form of a sequence

  function IdKey(id: nat): seq<int> { [id] }

  lemma RowKeysDiffer(rows: Rows, xs: seq<nat>)
    requires Dense(rows) && KnownRows(rows, xs)
    ensures forall x, y | x in xs && y in xs && RowKey(rows, x) == RowKey(rows, y) :: x == y
  {
    DenseAt(rows);
  }

  lemma DedupSame(rows: Rows, xs: seq<nat>)
    requires Dense(rows) && KnownRows(rows, xs)
    ensures DedupBy(xs, IdKey) == DedupBy(xs, id => RowKey(rows, id))
  {
    RowKeysDiffer(rows, xs);
    forall x, y | x in xs && y in xs
      ensures IdKey(x) == IdKey(y) <==> RowKey(rows, x) == RowKey(rows, y)
    {
      assert IdKey(x)[0] == x && IdKey(y)[0] == y;
    }
    DedupAlike(xs, IdKey, id => RowKey(rows, id));
  }

  /** Ordered sequences stay as they are; canonical sets are the ascending list of their members. */
  ghost predicate IsForm(rows: Rows, kind: SequenceKind, elements: seq<nat>, form: seq<nat>)
  {
    match kind
    case Ordered => form == elements
    case CanonicalSet => AscendingRows(rows, form) && forall e :: e in form <==> e in elements
  }

  method Form(rows: Rows, kind: SequenceKind, elements: seq<nat>) returns (form: seq<nat>)
    requires Dense(rows) && KnownRows(rows, elements)
    ensures IsForm(rows, kind, elements, form) && Refers(rows, SequenceKey(kind, form)) && |form| <= |elements|
  {
    if kind == Ordered {
      return elements;
    }
    var key := id => RowKey(rows, id);
    var sorted := Sort(elements, key);
    PermutationElements(sorted, elements);
    form := DedupBy(sorted, IdKey);
    DedupSame(rows, sorted);
    RowKeysDiffer(rows, sorted);
    DedupAscending(sorted, key);
    DedupElements(sorted, key);
  }

  /** Canonical sets with the same members have the same form, also across the growth of the rows. */
  lemma FormUnique(was: Rows, now: Rows, xs: seq<nat>, ys: seq<nat>, f: seq<nat>, g: seq<nat>)
    requires Dense(now) && was <= now && KnownRows(was, xs)
    requires IsForm(was, CanonicalSet, xs, f) && IsForm(now, CanonicalSet, ys, g)
    ensures f == g <==> forall e :: e in xs <==> e in ys
  {
    DenseAt(now);
    assert KnownRows(was, f);
    RefersExtends(was, now, SequenceKey(CanonicalSet, f));
    if forall e :: e in xs <==> e in ys {
      AscendingUnique(f, g, id => RowKey(now, id));
    }
  }

  /** Two sequence requests of a run agree exactly when they ask for the same: an ordered sequence
      by its list, a canonical set by its members. */
  lemma SequencesAreMaps(states: seq<Sequences>, calls: seq<Call<SequenceKey>>, i: nat, j: nat,
                         was: Rows, now: Rows, xs: seq<nat>, ys: seq<nat>)
    requires IsRun(states, calls) && i <= j < |calls|
    requires calls[i].Call? && calls[i].result.Id? && calls[j].Call? && calls[j].result.Id?
    requires Dense(now) && was <= now && KnownRows(was, xs)
    requires IsForm(was, calls[i].key.kind, xs, calls[i].key.elements)
    requires IsForm(now, calls[j].key.kind, ys, calls[j].key.elements)
    ensures calls[i].result == calls[j].result <==>
              && calls[i].key.kind == calls[j].key.kind
              && if calls[i].key.kind == Ordered then xs == ys else forall e :: e in xs <==> e in ys
  {
    RunsAreMaps(states, calls, i, j);
    if calls[i].key.kind == CanonicalSet && calls[j].key.kind == CanonicalSet {
      FormUnique(was, now, xs, ys, calls[i].key.elements, calls[j].key.elements);
    }
  }

  // ----- One interning call

  function Counting(requests: nat, asks: bool): nat { if asks then requests + 1 else requests }

  /** Room for one more draft: its number, its identifier, its memory and the allocator allow it. */
  predicate Room(count: nat, limit: nat, budget: Budget, additional: nat, allocates: bool)
  {
    count + 1 <= limit && count < U32 && budget.Plan(additional).Some? && allocates
  }

  /** The budget after a call that took a table from that many drafts to that many. */
  function Spent(before: Budget, was: nat, now: nat, additional: nat): Budget
  {
    if now == was then before else before.Commit(before.used + additional)
  }

  /** The memory an interning call takes: that of a new draft, or none. */
  ghost predicate Charged<K, P>(was: seq<Draft<K, P>>, now: seq<Draft<K, P>>, key: K, payload: P,
                                before: Budget, after: Budget, additional: nat)
  {
    && after.Sound() && after == Spent(before, |was|, |now|, additional)
    && if |now| == |was| then now == was else now == Next(was, key, payload)
  }

  /** Look the key up, and append it when it is new. The request is already counted, so neither the
      hit counter nor the counter of unique keys can overflow. */
  method Answer<K(==), P>(t: Table<K, P>, bucket: K -> nat, key: K, payload: P, limit: nat, additional: nat,
                          allocates: bool, budget: Budget)
    returns (r: Interned, now: Table<K, P>, after: Budget)
    requires Dense(t.drafts) && t.buckets == Buckets(t.drafts, bucket)
    requires Counted(t) && t.hits + t.unique < t.requests && budget.Sound()
    ensures Dense(now.drafts) && now.buckets == Buckets(now.drafts, bucket) && Counted(now)
    ensures Interns(t.drafts, now.drafts, key, r) && now.requests == t.requests
    ensures Charged(t.drafts, now.drafts, key, payload, budget, after, additional)
    ensures r.Id? <==> Holds(t.drafts, key) || Room(|t.drafts|, limit, budget, additional, allocates)
    ensures now.hits == Counting(t.hits, Holds(t.drafts, key))
  {
    after := budget;
    var found := Lookup(t.drafts, t.buckets, bucket, key);
    if found.Some? {
      return Id(found.value), Hit(t), after;
    }
    if !Room(|t.drafts|, limit, budget, additional, allocates) {
      return Rejected, t, after;
    }
    NextKeeps(t.drafts, bucket, key, payload);
    CommitPlan(budget, additional);
    return Id(|t.drafts|), Insert(t, bucket, key, payload), budget.Commit(budget.Plan(additional).value);
  }

  /** The same without buckets, for the documents. */
  method AnswerUnbucketed<K(==), P>(t: Table<K, P>, key: K, payload: P, limit: nat, additional: nat,
                                    allocates: bool, budget: Budget)
    returns (r: Interned, now: Table<K, P>, after: Budget)
    requires Dense(t.drafts) && Counted(t) && t.hits + t.unique < t.requests && budget.Sound()
    ensures Dense(now.drafts) && Counted(now) && Interns(t.drafts, now.drafts, key, r) && now.requests == t.requests
    ensures Charged(t.drafts, now.drafts, key, payload, budget, after, additional)
    ensures r.Id? <==> Holds(t.drafts, key) || Room(|t.drafts|, limit, budget, additional, allocates)
    ensures now.hits == Counting(t.hits, Holds(t.drafts, key))
  {
    after := budget;
    var found := Search(t.drafts, key);
    if found.Some? {
      return Id(found.value), Hit(t), after;
    }
    if !Room(|t.drafts|, limit, budget, additional, allocates) {
      return Rejected, t, after;
    }
    NextKeeps(t.drafts, _ => 0, key, payload);
    CommitPlan(budget, additional);
    return Id(|t.drafts|), t.(drafts := Next(t.drafts, key, payload), unique := t.unique + 1),
           budget.Commit(budget.Plan(additional).value);
  }

  lemma ChargeGrows<K, P>(was: seq<Draft<K, P>>, now: seq<Draft<K, P>>, key: K, payload: P,
                          before: Budget, after: Budget, additional: nat)
    requires Charged(was, now, key, payload, before, after, additional)
    ensures was <= now && after.used >= before.used
  {
  }

  /** A charge that covers the size of a draft keeps the tables paid for. */
  lemma PaidFor<K, P>(was: seq<Draft<K, P>>, now: seq<Draft<K, P>>, key: K, payload: P, before: Budget, after: Budget,
                      additional: nat, size: Draft<K, P> -> nat, rest: nat)
    requires Charged(was, now, key, payload, before, after, additional)
    requires size(Draft(|was|, key, payload)) <= additional
    requires Total(was, size) + rest <= before.used
    ensures Total(now, size) + rest <= after.used
    ensures was <= now && after.used >= before.used
  {
    TotalAppend(was, size, Draft(|was|, key, payload));
  }

  // ----- The builder

  class NativeArenaBuilder {
    const sizes: Sizes
    const limits: Limits
    /** The category of a well-formed canonical row. */
    const scan: Bytes -> Option<nat>
    const rowBucket: Bytes -> nat
    const sequenceBucket: SequenceKey -> nat
    const anonymousBucket: AnonymousKey -> nat
    var budget: Budget
    var rows: Table<Bytes, nat>
    var sequences: Table<SequenceKey, ()>
    var documents: Table<Scope, ()>
    var anonymous: Table<AnonymousKey, nat>

    ghost predicate Valid()
      reads this
    {
      && budget.Sound() && Footprint() <= budget.used
      && Counted(rows) && Dense(rows.drafts) && rows.buckets == Buckets(rows.drafts, rowBucket)
      && Scanned(rows.drafts, scan)
      && Counted(sequences) && Dense(sequences.drafts) && sequences.buckets == Buckets(sequences.drafts, sequenceBucket)
      && SequencesRefer(rows.drafts, sequences.drafts)
      && Counted(documents) && Dense(documents.drafts)
      && Counted(anonymous) && Dense(anonymous.drafts)
      && anonymous.buckets == Buckets(anonymous.drafts, anonymousBucket)
      && AnonymousReside(documents.drafts, anonymous.drafts)
    }

    /** The bytes the tables hold on to. */
    ghost function Footprint(): nat
      reads this
    {
      Total(rows.drafts, RowSize) + Total(sequences.drafts, SequenceSize) + Total(anonymous.drafts, AnonymousSize)
    }

    constructor (sizes: Sizes, limits: Limits, maximum: Option<nat>, scan: Bytes -> Option<nat>,
                 rowBucket: Bytes -> nat, sequenceBucket: SequenceKey -> nat, anonymousBucket: AnonymousKey -> nat)
      ensures Valid() && budget == Budget(maximum, 0, 0)
      ensures rows == Empty() && sequences == Empty() && documents == Empty() && anonymous == Empty()
      ensures this.sizes == sizes && this.limits == limits && this.scan == scan
    {
      this.sizes, this.limits, this.scan := sizes, limits, scan;
      this.rowBucket, this.sequenceBucket, this.anonymousBucket := rowBucket, sequenceBucket, anonymousBucket;
      budget := Budget(maximum, 0, 0);
      rows, sequences, documents, anonymous := Empty(), Empty(), Empty(), Empty();
    }

    /** The request is well formed and can be counted, so that the table is asked. */
    predicate AsksRow(requests: nat, data: Bytes) { scan(data).Some? && requests + 1 < U64 }

    predicate AsksSequence(known: Rows, requests: nat, elements: seq<nat>)
    {
      |elements| <= limits.arity && KnownRows(known, elements) && requests + 1 < U64
    }

    predicate AsksDocument(requests: nat) { requests + 1 < U64 }

    predicate AsksIdentity(known: Documents, requests: nat, document: nat, localKey: Bytes)
    {
      0 < |localKey| <= limits.localKeyBytes && document < |known| && requests + 1 < U64
    }

    method InternCanonicalRow(data: Bytes, allocates: bool) returns (r: Interned)
      requires Valid()
      modifies this`rows, this`budget
      ensures Valid() && Interns(old(rows.drafts), rows.drafts, data, r)
      ensures r.Id? <==>
                && AsksRow(old(rows.requests), data)
                && (|| Holds(old(rows.drafts), data)
                    || Room(|old(rows.drafts)|, limits.rows, old(budget), sizes.RowCost(data), allocates))
      ensures budget == Spent(old(budget), |old(rows.drafts)|, |rows.drafts|, sizes.RowCost(data))
      ensures rows.requests == Counting(old(rows.requests), AsksRow(old(rows.requests), data))
      ensures rows.hits == Counting(old(rows.hits), r.Id? && Holds(old(rows.drafts), data))
    {
      if !AsksRow(rows.requests, data) {
        return Rejected;
      }
      ghost var was, before := rows.drafts, budget;
      var category, additional := scan(data).value, sizes.RowCost(data);
      r, rows, budget := Answer(Requested(rows), rowBucket, data, category, limits.rows, additional, allocates, budget);
      PaidFor(was, rows.drafts, data, category, before, budget, additional, RowSize,
              Total(sequences.drafts, SequenceSize) + Total(anonymous.drafts, AnonymousSize));
      SequencesReferExtends(was, rows.drafts, sequences.drafts);
      assert Next(was, data, category)[..|was|] == was;
    }

    /** Look a canonical form up, after the request has been counted. */
    method InternForm(key: SequenceKey, elements: seq<nat>, allocates: bool) returns (r: Interned)
      requires Valid() && sequences.hits + sequences.unique < sequences.requests
      requires Refers(rows.drafts, key) && |key.elements| <= |elements|
      modifies this`sequences, this`budget
      ensures Valid() && Interns(old(sequences.drafts), sequences.drafts, key, r)
      ensures r.Id? <==>
                || Holds(old(sequences.drafts), key)
                || Room(|old(sequences.drafts)|, limits.sequences, old(budget), sizes.SequenceCost(elements), allocates)
      ensures budget == Spent(old(budget), |old(sequences.drafts)|, |sequences.drafts|, sizes.SequenceCost(elements))
      ensures sequences.requests == old(sequences.requests)
      ensures sequences.hits == Counting(old(sequences.hits), r.Id? && Holds(old(sequences.drafts), key))
    {
      ghost var was, before := sequences.drafts, budget;
      var additional := sizes.SequenceCost(elements);
      r, sequences, budget := Answer(sequences, sequenceBucket, key, (), limits.sequences, additional, allocates,
                                     budget);
      PaidFor(was, sequences.drafts, key, (), before, budget, additional, SequenceSize,
              Total(rows.drafts, RowSize) + Total(anonymous.drafts, AnonymousSize));
      assert Next(was, key, ())[..|was|] == was;
    }

    /** A form is found, or there is room for it and for the copy of the members. */
    ghost predicate FormFits(held: Sequences, budget: Budget, key: SequenceKey, elements: seq<nat>,
                             copies: bool, allocates: bool)
    {
      && budget.Plan(ID_BYTES * |elements|).Some? && copies
      && (|| Holds(held, key)
          || Room(|held|, limits.sequences, budget, sizes.SequenceCost(elements), allocates))
    }

    /** The members are copied before the form is looked up, so that a repeated request can still
        be refused. */
    method InternMembers(kind: SequenceKind, elements: seq<nat>, copies: bool, allocates: bool)
      returns (r: Interned, ghost form: seq<nat>)
      requires Valid() && sequences.hits + sequences.unique < sequences.requests && KnownRows(rows.drafts, elements)
      modifies this`sequences, this`budget
      ensures Valid() && IsForm(rows.drafts, kind, elements, form)
      ensures Interns(old(sequences.drafts), sequences.drafts, SequenceKey(kind, form), r)
      ensures r.Id? <==>
                FormFits(old(sequences.drafts), old(budget), SequenceKey(kind, form), elements, copies, allocates)
      ensures budget == Spent(old(budget), |old(sequences.drafts)|, |sequences.drafts|, sizes.SequenceCost(elements))
      ensures sequences.requests == old(sequences.requests)
      ensures sequences.hits
           == Counting(old(sequences.hits), r.Id? && Holds(old(sequences.drafts), SequenceKey(kind, form)))
    {
      var canonical := Form(rows.drafts, kind, elements);
      form := canonical;
      if budget.Plan(ID_BYTES * |elements|).None? || !copies {
        r := Rejected;
      } else {
        r := InternForm(SequenceKey(kind, canonical), elements, allocates);
      }
    }

    /** Sequences of known rows are interned by their form. */
    method InternSequence(kind: SequenceKind, elements: seq<nat>, copies: bool, allocates: bool)
      returns (r: Interned, ghost form: seq<nat>)
      requires Valid()
      modifies this`sequences, this`budget
      ensures Valid()
      ensures AsksSequence(rows.drafts, old(sequences.requests), elements) ==> IsForm(rows.drafts, kind, elements, form)
      ensures Interns(old(sequences.drafts), sequences.drafts, SequenceKey(kind, form), r)
      ensures r.Id? <==>
                && AsksSequence(rows.drafts, old(sequences.requests), elements)
                && FormFits(old(sequences.drafts), old(budget), SequenceKey(kind, form), elements, copies, allocates)
      ensures budget == Spent(old(budget), |old(sequences.drafts)|, |sequences.drafts|, sizes.SequenceCost(elements))
      ensures sequences.requests
           == Counting(old(sequences.requests), AsksSequence(rows.drafts, old(sequences.requests), elements))
      ensures sequences.hits
           == Counting(old(sequences.hits), r.Id? && Holds(old(sequences.drafts), SequenceKey(kind, form)))
    {
      form := [];
      if !AsksSequence(rows.drafts, sequences.requests, elements) {
        return Rejected, form;
      }
      sequences := Requested(sequences);
      r, form := InternMembers(kind, elements, copies, allocates);
    }

    method InternDocumentScope(scope: Scope, allocates: bool) returns (r: Interned)
      requires Valid()
      modifies this`documents, this`budget
      ensures Valid() && Interns(old(documents.drafts), documents.drafts, scope, r)
      ensures r.Id? <==>
                && AsksDocument(old(documents.requests))
                && (|| Holds(old(documents.drafts), scope)
                    || Room(|old(documents.drafts)|, limits.documents, old(budget), sizes.document, allocates))
      ensures budget == Spent(old(budget), |old(documents.drafts)|, |documents.drafts|, sizes.document)
      ensures documents.requests == Counting(old(documents.requests), AsksDocument(old(documents.requests)))
      ensures documents.hits == Counting(old(documents.hits), r.Id? && Holds(old(documents.drafts), scope))
    {
      if !AsksDocument(documents.requests) {
        return Rejected;
      }
      ghost var was, before := documents.drafts, budget;
      r, documents, budget := AnswerUnbucketed(Requested(documents), scope, (), limits.documents, sizes.document,
                                               allocates, budget);
      ChargeGrows(was, documents.drafts, scope, (), before, budget, sizes.document);
      AnonymousResideExtends(was, documents.drafts, anonymous.drafts);
    }

    /** Look an identity up, after the request has been counted. */
    method InternIdentity(key: AnonymousKey, document: nat, allocates: bool) returns (r: Interned)
      requires Valid() && anonymous.hits + anonymous.unique < anonymous.requests
      requires document < |documents.drafts| && documents.drafts[document].key == key.scope
      modifies this`anonymous, this`budget
      ensures Valid() && Interns(old(anonymous.drafts), anonymous.drafts, key, r)
      ensures r.Id? <==>
                || Holds(old(anonymous.drafts), key)
                || Room(|old(anonymous.drafts)|, limits.anonymous, old(budget),
                        sizes.AnonymousCost(key.localKey), allocates)
      ensures budget
           == Spent(old(budget), |old(anonymous.drafts)|, |anonymous.drafts|, sizes.AnonymousCost(key.localKey))
      ensures anonymous.requests == old(anonymous.requests)
      ensures anonymous.hits == Counting(old(anonymous.hits), r.Id? && Holds(old(anonymous.drafts), key))
    {
      ghost var was, before := anonymous.drafts, budget;
      var additional := sizes.AnonymousCost(key.localKey);
      r, anonymous, budget := Answer(anonymous, anonymousBucket, key, document, limits.anonymous, additional,
                                     allocates, budget);
      PaidFor(was, anonymous.drafts, key, document, before, budget, additional, AnonymousSize,
              Total(rows.drafts, RowSize) + Total(sequences.drafts, SequenceSize));
      assert Next(was, key, document)[..|was|] == was;
    }

    method InternAnonymous(document: nat, localKey: Bytes, allocates: bool) returns (r: Interned)
      requires Valid()
      modifies this`anonymous, this`budget
      ensures Valid()
      ensures document >= |documents.drafts| ==> r == Rejected && anonymous == old(anonymous)
      ensures document < |documents.drafts| ==>
                var key := AnonymousKey(documents.drafts[document].key, localKey);
                && Interns(old(anonymous.drafts), anonymous.drafts, key, r)
                && (r.Id? <==>
                    && AsksIdentity(documents.drafts, old(anonymous.requests), document, localKey)
                    && (|| Holds(old(anonymous.drafts), key)
                        || Room(|old(anonymous.drafts)|, limits.anonymous, old(budget),
                                sizes.AnonymousCost(localKey), allocates)))
      ensures budget == Spent(old(budget), |old(anonymous.drafts)|, |anonymous.drafts|, sizes.AnonymousCost(localKey))
      ensures anonymous.requests
           == Counting(old(anonymous.requests),
                       AsksIdentity(documents.drafts, old(anonymous.requests), document, localKey))
      ensures anonymous.hits
           == Counting(old(anonymous.hits), r.Id? && Holds(old(anonymous.drafts),
                       AnonymousKey(documents.drafts[document].key, localKey)))
    {
      if !AsksIdentity(documents.drafts, anonymous.requests, document, localKey) {
        return Rejected;
      }
      anonymous := Requested(anonymous);
      r := InternIdentity(AnonymousKey(documents.drafts[document].key, localKey), document, allocates);
    }
  }
}
