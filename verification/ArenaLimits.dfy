/** The limits of the arena builder in numbers: which commands of a run succeed, and what no run
    ever exceeds. */
module ArenaLimits {
  import opened Ordering
  import opened InternTable
  import opened ArenaBuilder
  import opened ArenaRuns

  // ----- Success in numbers

  /** Some draft has the key. */
  ghost predicate Has<K, P>(drafts: seq<Draft<K, P>>, key: K)
  {
    exists j :: 0 <= j < |drafts| && drafts[j].key == key
  }

  /** That many bytes more are within a word and within the maximum, if there is one. */
  predicate Affords(budget: Budget, bytes: nat)
  {
    && budget.used + bytes < 0x1_0000_0000_0000_0000
    && (budget.maximum.Some? ==> budget.used + bytes <= budget.maximum.value)
  }

  /** There is a number left for one more, under the limit and as a 32-bit identifier. */
  predicate NumberLeft(count: nat, limit: nat)
  {
    count < limit && count < 0x1_0000_0000
  }

  predicate CanCount(requests: nat) { requests + 1 < 0x1_0000_0000_0000_0000 }

  /** A row succeeds exactly when it is well formed and countable, and is held or can be afforded. */
  lemma RowSucceeds(b: NativeArenaBuilder, s: Situation, data: Bytes, allocates: bool)
    ensures Succeeds(b, s, Row(data, allocates)) <==>
      && b.scan(data).Some? && CanCount(s.asked.rows)
      && (|| Has(s.tables.rows, data)
          || (&& NumberLeft(|s.tables.rows|, b.limits.rows)
              && Affords(s.budget, |data| + b.sizes.row + 4) && allocates))
  {
    HoldsAt(s.tables.rows, data);
  }

  /** A sequence succeeds exactly when it is short enough, of known rows and countable, the copy of its
      members can be afforded, and its form is held or can be afforded. */
  lemma SequenceSucceeds(b: NativeArenaBuilder, s: Situation, kind: SequenceKind, elements: seq<nat>,
                         copies: bool, allocates: bool, form: seq<nat>)
    requires Dense(s.tables.rows) && IsForm(s.tables.rows, kind, elements, form)
    ensures Succeeds(b, s, Sequence(kind, elements, copies, allocates)) <==>
      && |elements| <= b.limits.arity && (forall e | e in elements :: e < |s.tables.rows|)
      && CanCount(s.asked.sequences) && Affords(s.budget, 4 * |elements|) && copies
      && (|| Has(s.tables.sequences, SequenceKey(kind, form))
          || (&& NumberLeft(|s.tables.sequences|, b.limits.sequences)
              && Affords(s.budget, 4 * |elements| + b.sizes.sequence + 4) && allocates))
  {
    var c := Sequence(kind, elements, copies, allocates);
    HoldsAt(s.tables.sequences, SequenceKey(kind, form));
    if Asks(b, s, c) {
      FormDecides(b, s, c, form);
    }
  }

  lemma DocumentSucceeds(b: NativeArenaBuilder, s: Situation, scope: Scope, allocates: bool)
    ensures Succeeds(b, s, Document(scope, allocates)) <==>
      && CanCount(s.asked.documents)
      && (|| Has(s.tables.documents, scope)
          || (&& NumberLeft(|s.tables.documents|, b.limits.documents)
              && Affords(s.budget, b.sizes.document) && allocates))
  {
    HoldsAt(s.tables.documents, scope);
  }

  /** An identity succeeds exactly when its document is known and its local key neither empty nor too
      long, and it is held or can be afforded. */
  lemma IdentitySucceeds(b: NativeArenaBuilder, s: Situation, document: nat, localKey: Bytes, allocates: bool)
    ensures Succeeds(b, s, Identity(document, localKey, allocates)) <==>
      && document < |s.tables.documents| && 0 < |localKey| <= b.limits.localKeyBytes
      && CanCount(s.asked.anonymous)
      && (|| Has(s.tables.anonymous, AnonymousKey(s.tables.documents[document].key, localKey))
          || (&& NumberLeft(|s.tables.anonymous|, b.limits.anonymous)
              && Affords(s.budget, |localKey| + b.sizes.anonymous + 4) && allocates))
  {
    if document < |s.tables.documents| {
      HoldsAt(s.tables.anonymous, AnonymousKey(s.tables.documents[document].key, localKey));
    }
  }

  /** What a command costs when it adds a draft to its table. */
  function Cost(sizes: Sizes, c: Command): nat
  {
    match c
    case Row(data, _) => |data| + sizes.row + 4
    case Sequence(_, elements, _, _) => 4 * |elements| + sizes.sequence + 4
    case Document(_, _) => sizes.document
    case Identity(_, localKey, _) => |localKey| + sizes.anonymous + 4
  }

  /** The number of drafts in the table a command is for. */
  function Drafted(t: Tables, c: Command): nat
  {
    match c
    case Row(_, _) => |t.rows|
    case Sequence(_, _, _, _) => |t.sequences|
    case Document(_, _) => |t.documents|
    case Identity(_, _, _) => |t.anonymous|
  }

  /** Memory is taken for a new draft and for nothing else; the peak is the most ever taken. */
  lemma CommandCosts(b: NativeArenaBuilder, s: Situation, c: Command, r: Interned, t: Situation)
    requires Passes(b, s, c, r, t)
    ensures t.budget.maximum == s.budget.maximum
    ensures t.budget.used
         == s.budget.used + if Drafted(t.tables, c) == Drafted(s.tables, c) then 0 else Cost(b.sizes, c)
    ensures Drafted(t.tables, c) == Drafted(s.tables, c) ==> t.budget.peak == s.budget.peak
    ensures Drafted(t.tables, c) != Drafted(s.tables, c) ==>
              t.budget.peak == if s.budget.peak < t.budget.used then t.budget.used else s.budget.peak
  {
  }

  // ----- What no run exceeds

  ghost predicate Within(limits: Limits, t: Tables)
  {
    && |t.rows| <= limits.rows && |t.sequences| <= limits.sequences
    && |t.documents| <= limits.documents && |t.anonymous| <= limits.anonymous
  }

  /** A table that grew had room. */
  lemma GrewWithin<K, P>(was: seq<Draft<K, P>>, now: seq<Draft<K, P>>, call: Call<K>, limit: nat)
    requires Step(was, now, call) && |was| <= limit
    requires call.Call? && call.result.Id? && !Holds(was, call.key) ==> |was| < limit
    ensures |now| <= limit
  {
  }

  lemma StepWithin(b: NativeArenaBuilder, s: Situation, c: Command, r: Interned, t: Situation, calls: Calls)
    requires Within(b.limits, s.tables) && Dense(s.tables.rows) && Passes(b, s, c, r, t)
    requires Steps(s.tables, t.tables, calls) && Answers(s.tables.rows, s.tables.documents, calls, c, r)
    ensures Within(b.limits, t.tables)
  {
    if r.Id? && c.Sequence? {
      FormDecides(b, s, c, calls.sequences.key.elements);
    }
    GrewWithin(s.tables.rows, t.tables.rows, calls.rows, b.limits.rows);
    GrewWithin(s.tables.sequences, t.tables.sequences, calls.sequences, b.limits.sequences);
    GrewWithin(s.tables.documents, t.tables.documents, calls.documents, b.limits.documents);
    GrewWithin(s.tables.anonymous, t.tables.anonymous, calls.anonymous, b.limits.anonymous);
  }

  /** Along every run no table has more drafts than its limit. */
  lemma {:induction false} RunsWithin(b: NativeArenaBuilder, h: History, n: nat, situations: seq<Situation>,
                                      commands: seq<Command>, results: seq<Interned>, i: nat)
    requires Runs(h, n) && AllAnswered(h, n, commands, results)
    requires Unfolds(b, h, n, situations, commands, results) && Within(b.limits, situations[0].tables) && i <= n
    ensures Within(b.limits, situations[i].tables)
    decreases i
  {
    if i > 0 {
      RunsWithin(b, h, n, situations, commands, results, i - 1);
      var calls := CallsAt(h, n, i - 1);
      assert situations[i - 1].tables == TablesAt(h, n, i - 1) && situations[i].tables == TablesAt(h, n, i);
      StepsAt(h, n, i - 1);
      assert Answered(h, n, i - 1, commands[i - 1], results[i - 1]);
      assert Passes(b, situations[i - 1], commands[i - 1], results[i - 1], situations[i]);
      StepWithin(b, situations[i - 1], commands[i - 1], results[i - 1], situations[i], calls);
    }
  }

  lemma StepsAt(h: History, n: nat, i: nat)
    requires Runs(h, n) && i < n
    ensures Steps(TablesAt(h, n, i), TablesAt(h, n, i + 1), CallsAt(h, n, i)) && Dense(h.rows.states[i])
  {
    assert Step(h.rows.states[i], h.rows.states[i + 1], h.rows.calls[i]);
    assert Step(h.sequences.states[i], h.sequences.states[i + 1], h.sequences.calls[i]);
    assert Step(h.documents.states[i], h.documents.states[i + 1], h.documents.calls[i]);
    assert Step(h.anonymous.states[i], h.anonymous.states[i + 1], h.anonymous.calls[i]);
  }
}
