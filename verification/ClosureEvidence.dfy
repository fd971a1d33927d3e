/** The whole preparation of closure evidence over one ledger. */
module ClosureEvidence {
  import opened Ordering
  import opened EvidenceLedger
  import opened EvidencePreparation
  import opened AuxiliaryPlan

  /** `row` is the largest canonical row; `predicted` and `table` are the sizes asked for and got for
      the document table; the other fields are the documents, the work on the fingerprints and the
      merged origins, and the guards between them. */
  datatype Input = Input(
    limits: Limits,
    base: nat,
    row: nat,
    uncountable: bool,
    predicted: nat,
    fails: bool,
    table: nat,
    options: Options,
    documents: seq<Source>,
    logical: Work,
    signature: bool,
    merge: Work,
    closure: RowTable,
    content: bool,
    plan: Plan,
    cancelled: bool)

  // ----- Scripts

  function StartScript(x: Input): Script
  {
    Then(Use(Temporary(0)), Then(Use(Temporary(x.row)), Use(Guard(x.uncountable))))
  }

  function ReserveScript(x: Input): Script
  {
    Then(Use(Temporary(x.predicted)), Then(Use(Guard(x.fails)), Use(Retained(x.table))))
  }

  function OpeningScript(x: Input): Script { Then(StartScript(x), ReserveScript(x)) }

  function DocumentsScript(o: Options, row: nat, ds: seq<Source>): Script
  {
    if ds == [] then Idle
    else Then(DocumentsScript(o, row, ds[..|ds| - 1]), DocumentScript(o, row, ds[|ds| - 1]))
  }

  function MergedOrigins(x: Input): Option<RowTable> { if x.options.collect then Some(x.closure) else None }

  function FingerprintScript(x: Input): Script
  {
    Then(WorkScript(x.logical), Then(Use(Temporary(x.row)), Use(Guard(x.signature))))
  }

  function MergeScript(x: Input): Script { if x.options.collect then WorkScript(x.merge) else Idle }

  /** The merged origins are entered, digested and dropped again. */
  function DigestScript(x: Input): Script
  {
    Then(Use(Retained(TableOr(MergedOrigins(x)))),
    Then(Use(Guard(x.content)), Use(Released(TableOr(MergedOrigins(x))))))
  }

  function ClosingScript(x: Input): Script
  {
    Then(FingerprintScript(x), Then(MergeScript(x), DigestScript(x)))
  }

  function TableScript(x: Input): Script
  {
    Then(OpeningScript(x), DocumentsScript(x.options, x.row, x.documents))
  }

  /** Everything before the auxiliary plan. */
  function ContentScript(x: Input): Script
  {
    Then(TableScript(x), ClosingScript(x))
  }

  function PreparationScript(x: Input): Script
  {
    Then(ContentScript(x), PlanScript(Products(x.options, x.documents), x.plan))
  }

  function EvidenceScript(x: Input): Script
  {
    Then(PreparationScript(x), Use(Guard(x.cancelled)))
  }

  /** The largest workspace the preparation asks for. */
  function HighWater(x: Input): nat
  {
    assert Asked(0, EvidenceScript(x)) != [] by { AsksAtOnce(x); }
    Largest(Asked(0, EvidenceScript(x)))
  }

  lemma AsksAtOnce(x: Input)
    ensures Asked(0, EvidenceScript(x)) != []
  {
    assert Asked(0, StartScript(x)) != [];
    assert Asked(0, OpeningScript(x)) != [];
    assert Asked(0, TableScript(x)) != [];
    assert Asked(0, ContentScript(x)) != [];
    assert Asked(0, PreparationScript(x)) != [];
  }

  // ----- The steps

  method Start(budget: EvidenceBudget, x: Input) returns (outcome: Outcome)
    modifies budget`asked
    ensures budget.State(outcome) == Run(budget.limits, budget.base, old(budget.State(Done)), StartScript(x))
    ensures Ordinary(outcome)
  {
    RunThen(budget.limits, budget.base, budget.State(Done), Use(Temporary(0)),
            Then(Use(Temporary(x.row)), Use(Guard(x.uncountable))));
    outcome := budget.EnsureTemporary(0);
    if outcome != Done { return; }
    outcome := budget.EnsureTemporary(x.row);
    if outcome == Done && x.uncountable {
      outcome := Halted;
    }
  }

  method Reserve(budget: EvidenceBudget, x: Input) returns (outcome: Outcome)
    modifies budget
    ensures budget.State(outcome) == Run(budget.limits, budget.base, old(budget.State(Done)), ReserveScript(x))
    ensures Ordinary(outcome) && budget.retained == old(budget.retained) + if outcome == Done then x.table else 0
  {
    RunThen(budget.limits, budget.base, budget.State(Done), Use(Temporary(x.predicted)),
            Then(Use(Guard(x.fails)), Use(Retained(x.table))));
    outcome := budget.EnsureTemporary(x.predicted);
    if outcome != Done { return; }
    if x.fails {
      return Halted;
    }
    outcome := budget.Retain(x.table);
  }

  method Open(budget: EvidenceBudget, x: Input) returns (outcome: Outcome, table: nat)
    modifies budget
    ensures budget.State(outcome) == Run(budget.limits, budget.base, old(budget.State(Done)), OpeningScript(x))
    ensures Ordinary(outcome)
    ensures budget.retained == old(budget.retained) + table && table == if outcome == Done then x.table else 0
  {
    table := 0;
    RunThen(budget.limits, budget.base, budget.State(Done), StartScript(x), ReserveScript(x));
    outcome := Start(budget, x);
    if outcome == Done {
      outcome := Reserve(budget, x);
      if outcome == Done {
        table := x.table;
      }
    }
  }

  lemma {:induction false} DocumentsStop(limits: Limits, base: nat, s: Ledger, o: Options, row: nat, ds: seq<Source>,
                                         n: nat)
    requires n <= |ds| && Run(limits, base, s, DocumentsScript(o, row, ds[..n])).outcome != Done
    ensures Run(limits, base, s, DocumentsScript(o, row, ds)) == Run(limits, base, s, DocumentsScript(o, row, ds[..n]))
    decreases |ds|
  {
    if n == |ds| {
      assert ds[..n] == ds;
    } else {
      var front := ds[..|ds| - 1];
      assert front[..n] == ds[..n];
      DocumentsStop(limits, base, s, o, row, front, n);
      RunThen(limits, base, s, DocumentsScript(o, row, front), DocumentScript(o, row, ds[|ds| - 1]));
    }
  }

  /** What documents and the parts of one more occupy. */
  function Kept(documents: seq<Prepared>, parts: Prepared): nat
  {
    AllAuxiliary(documents) + AllKeys(documents) + AuxiliaryBytes(parts) + parts.key
  }

  /** Whenever it returns, the ledger has grown by exactly the documents and parts that are kept. */
  method PrepareDocuments(budget: EvidenceBudget, o: Options, row: nat, ds: seq<Source>)
    returns (outcome: Outcome, documents: seq<Prepared>, parts: Prepared)
    modifies budget
    ensures budget.State(outcome)
         == Run(budget.limits, budget.base, old(budget.State(Done)), DocumentsScript(o, row, ds))
    ensures Ordinary(outcome)
    ensures budget.retained == old(budget.retained) + Kept(documents, parts)
    ensures outcome == Done ==> documents == Products(o, ds) && parts == NOTHING
  {
    ghost var s := budget.State(Done);
    documents, parts := [], NOTHING;
    for i := 0 to |ds|
      invariant budget.State(Done) == Run(budget.limits, budget.base, s, DocumentsScript(o, row, ds[..i]))
      invariant documents == Products(o, ds[..i]) && parts == NOTHING
      invariant budget.retained == s.retained + AllAuxiliary(documents) + AllKeys(documents)
    {
      TakeNext(ds, i);
      RunThen(budget.limits, budget.base, s, DocumentsScript(o, row, ds[..i]), DocumentScript(o, row, ds[i]));
      outcome, parts := PrepareDocument(budget, o, row, ds[i]);
      if outcome != Done {
        DocumentsStop(budget.limits, budget.base, s, o, row, ds, i + 1);
        return;
      }
      AppendFront(documents, parts);
      documents, parts := documents + [parts], NOTHING;
    }
    TakeAll(ds);
    outcome := Done;
  }

  method Fingerprint(budget: EvidenceBudget, x: Input) returns (outcome: Outcome)
    modifies budget`asked
    ensures budget.State(outcome) == Run(budget.limits, budget.base, old(budget.State(Done)), FingerprintScript(x))
    ensures Ordinary(outcome)
  {
    RunThen(budget.limits, budget.base, budget.State(Done), WorkScript(x.logical),
            Then(Use(Temporary(x.row)), Use(Guard(x.signature))));
    outcome := DoWork(budget, x.logical);
    if outcome != Done { return; }
    outcome := budget.EnsureTemporary(x.row);
    if outcome == Done && x.signature {
      outcome := Halted;
    }
  }

  /** Releasing the merged origins cannot underflow, because they are still in the ledger. */
  method Digest(budget: EvidenceBudget, x: Input) returns (outcome: Outcome, closure: Option<RowTable>)
    modifies budget
    ensures budget.State(outcome) == Run(budget.limits, budget.base, old(budget.State(Done)), DigestScript(x))
    ensures Ordinary(outcome)
    ensures budget.retained == old(budget.retained) + TableOr(closure) && (outcome == Done ==> closure == None)
  {
    var bytes := TableOr(MergedOrigins(x));
    closure := None;
    RunThen(budget.limits, budget.base, budget.State(Done), Use(Retained(bytes)),
            Then(Use(Guard(x.content)), Use(Released(bytes))));
    outcome := budget.Retain(bytes);
    if outcome != Done { return; }
    closure := MergedOrigins(x);
    RunThen(budget.limits, budget.base, budget.State(Done), Use(Guard(x.content)), Use(Released(bytes)));
    if x.content {
      outcome := Halted;
      return;
    }
    closure := None;
    outcome := budget.Release(bytes);
  }

  method Close(budget: EvidenceBudget, x: Input) returns (outcome: Outcome, closure: Option<RowTable>)
    modifies budget
    ensures budget.State(outcome) == Run(budget.limits, budget.base, old(budget.State(Done)), ClosingScript(x))
    ensures Ordinary(outcome)
    ensures budget.retained == old(budget.retained) + TableOr(closure) && (outcome == Done ==> closure == None)
  {
    closure := None;
    RunThen(budget.limits, budget.base, budget.State(Done), FingerprintScript(x),
            Then(MergeScript(x), DigestScript(x)));
    outcome := Fingerprint(budget, x);
    if outcome != Done { return; }
    RunThen(budget.limits, budget.base, budget.State(Done), MergeScript(x), DigestScript(x));
    if x.options.collect {
      outcome := DoWork(budget, x.merge);
      if outcome != Done { return; }
    }
    outcome, closure := Digest(budget, x);
  }

  lemma KeptNothing()
    ensures Kept([], NOTHING) == 0
  {
  }

  lemma OwnedUnstaged(table: nat, documents: seq<Prepared>, parts: Prepared, closure: Option<RowTable>)
    ensures Owned(Store(table, documents, parts, closure, UNSTAGED, 0))
         == table + Kept(documents, parts) + TableOr(closure)
  {
  }

  /** The document table with its documents. */
  method PrepareTable(budget: EvidenceBudget, x: Input)
    returns (outcome: Outcome, table: nat, documents: seq<Prepared>, parts: Prepared)
    modifies budget
    ensures budget.State(outcome) == Run(budget.limits, budget.base, old(budget.State(Done)), TableScript(x))
    ensures Ordinary(outcome)
    ensures budget.retained == old(budget.retained) + table + Kept(documents, parts)
    ensures outcome == Done ==> table == x.table && documents == Products(x.options, x.documents) && parts == NOTHING
  {
    documents, parts := [], NOTHING;
    KeptNothing();
    RunThen(budget.limits, budget.base, budget.State(Done), OpeningScript(x),
            DocumentsScript(x.options, x.row, x.documents));
    outcome, table := Open(budget, x);
    if outcome == Done {
      outcome, documents, parts := PrepareDocuments(budget, x.options, x.row, x.documents);
    }
  }

  /** Everything before the auxiliary plan.  At every return the ledger retains what is owned. */
  method PrepareContent(budget: EvidenceBudget, x: Input) returns (outcome: Outcome, store: Store)
    requires budget.retained == 0
    modifies budget
    ensures budget.State(outcome) == Run(budget.limits, budget.base, old(budget.State(Done)), ContentScript(x))
    ensures Ordinary(outcome)
    ensures budget.retained == Owned(store)
    ensures outcome == Done ==> store == Store(x.table, Products(x.options, x.documents), NOTHING, None, UNSTAGED, 0)
  {
    RunThen(budget.limits, budget.base, budget.State(Done), TableScript(x), ClosingScript(x));
    var table, documents, parts, closure;
    outcome, table, documents, parts := PrepareTable(budget, x);
    closure := None;
    if outcome == Done {
      outcome, closure := Close(budget, x);
    }
    store := Store(table, documents, parts, closure, UNSTAGED, 0);
    OwnedUnstaged(table, documents, parts, closure);
  }

  // ----- The preparation

  lemma {:induction false} ProductsHave(o: Options, ds: seq<Source>)
    ensures |Products(o, ds)| == |ds| && AllHave(Products(o, ds), o.preserve, o.collect)
    decreases |ds|
  {
    if ds != [] {
      ProductsHave(o, ds[..|ds| - 1]);
      AppendFront(Products(o, ds[..|ds| - 1]), Product(o, ds[|ds| - 1]));
    }
  }

  /** Capabilities are options of the whole closure, so the documents are always aligned. */
  lemma AlwaysAligned(o: Options, ds: seq<Source>)
    ensures Aligned(Products(o, ds))
  {
    ProductsHave(o, ds);
    if ds != [] {
      AlignedAt(Products(o, ds), o.preserve, o.collect, 0);
    }
  }

  /** The run reaches the conversion and ends in it. */
  ghost predicate LostInConversion(x: Input)
  {
    var s := Run(x.limits, x.base, EMPTY, ContentScript(x));
    s.outcome == Done && Abandoned(x.limits, x.base, s, Products(x.options, x.documents), x.plan)
  }

  /** What the conversion was handed. */
  function Handed(x: Input): nat
  {
    var ds := Products(x.options, x.documents);
    AllAuxiliary(ds) + Staged(ds, x.plan)
  }

  lemma OwnedSettled(s: Store)
    requires AllAuxiliary(s.documents) == 0 && s.parts == NOTHING && s.closure == None && s.staging == UNSTAGED
    ensures Owned(s) == s.table + AllKeys(s.documents) + s.owner
  {
  }

  method Prepare(budget: EvidenceBudget, x: Input) returns (outcome: Outcome, store: Store)
    requires budget.State(Done) == EMPTY && budget.limits == x.limits && budget.base == x.base
    modifies budget
    ensures budget.State(outcome) == Run(x.limits, x.base, EMPTY, PreparationScript(x))
    ensures Ordinary(outcome)
    ensures budget.retained == Owned(store) + if LostInConversion(x) then Handed(x) else 0
    ensures outcome == Done ==> budget.retained == x.table + AllKeys(Products(x.options, x.documents)) + x.plan.owner
  {
    RunThen(x.limits, x.base, EMPTY, ContentScript(x), PlanScript(Products(x.options, x.documents), x.plan));
    outcome, store := PrepareContent(budget, x);
    if outcome == Done {
      AlwaysAligned(x.options, x.documents);
      outcome, store := PrepareAuxiliaryPlan(budget, store, x.plan);
      if outcome == Done {
        OwnedSettled(store);
      }
    }
  }

  /** Over every run: no release underflows and the documents are always aligned; the preparation
      is done exactly when no guard stops it and the largest workspace is admitted; every workspace
      it asked for was the next one of its script, and only the last can have been refused; and it
      returns with the ledger retaining what is owned, unless it ended in the conversion. */
  method PrepareEvidence(x: Input) returns (outcome: Outcome, store: Store, retained: nat, ghost asked: seq<nat>)
    ensures Ledger(retained, asked, outcome) == Run(x.limits, x.base, EMPTY, EvidenceScript(x))
    ensures Ordinary(outcome)
    ensures outcome == Done <==> Unguarded(EvidenceScript(x)) && Admits(x.limits, x.base, HighWater(x))
    ensures asked <= Asked(0, EvidenceScript(x)) && Judged(x.limits, x.base, asked, outcome)
    ensures outcome == Done ==> asked == Asked(0, EvidenceScript(x))
    ensures forall i | 0 <= i < |asked| && (outcome == LimitExceeded ==> i < |asked| - 1) ::
              && asked[i] <= x.limits.temporary && x.base + asked[i] < U64
              && (x.limits.memory.Some? ==> x.base + asked[i] <= x.limits.memory.value)
    ensures outcome == LimitExceeded ==>
              && asked != []
              && var w := asked[|asked| - 1];
                 || w > x.limits.temporary || x.base + w >= U64
                 || (x.limits.memory.Some? && x.base + w > x.limits.memory.value)
    ensures retained == Owned(store) + if LostInConversion(x) then Handed(x) else 0
    ensures outcome == Done ==> retained == x.table + AllKeys(Products(x.options, x.documents)) + x.plan.owner
  {
    var budget := new EvidenceBudget(x.limits, x.base);
    RunThen(x.limits, x.base, EMPTY, PreparationScript(x), Use(Guard(x.cancelled)));
    outcome, store := Prepare(budget, x);
    if outcome == Done && x.cancelled {
      outcome := Halted;
    }
    retained, asked := budget.retained, budget.asked;
    AsksAtOnce(x);
    Judgement(x.limits, x.base, EvidenceScript(x), Ledger(retained, asked, outcome));
    JudgedByNumbers(x.limits, x.base, asked, outcome);
  }
}
