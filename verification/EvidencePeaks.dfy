/** Every workspace the preparation of closure evidence asks for, in numbers: how large it is, and
    on top of which structures. */
module EvidencePeaks {
  import opened Ordering
  import opened EvidenceLedger
  import opened EvidencePreparation
  import opened AuxiliaryPlan
  import opened ClosureEvidence

  // ----- What a script asks for

  /** From a ledger that retains `total`, the script asks for a workspace of that size. */
  predicate AsksFor(script: Script, total: nat, size: nat)
    decreases script
  {
    match script
    case Idle => false
    case Use(e) => (e.Temporary? || e.Retained?) && size == total + e.bytes
    case Then(a, b) => AsksFor(a, total, size) || AsksFor(b, After(total, a), size)
  }

  lemma {:induction false} AsksForAsked(script: Script, total: nat, size: nat)
    ensures AsksFor(script, total, size) <==> size in Asked(total, script)
    decreases script
  {
    match script
    case Then(a, b) =>
      AsksForAsked(a, total, size);
      AsksForAsked(b, After(total, a), size);
    case _ =>
  }

  lemma {:induction false} AsksThen(a: Script, b: Script, total: nat, middle: nat, end: nat, size: nat)
    requires After(total, a) == middle && After(middle, b) == end
    ensures AsksFor(Then(a, b), total, size) <==> AsksFor(a, total, size) || AsksFor(b, middle, size)
    ensures After(total, Then(a, b)) == end
  {
  }

  lemma {:induction false} AsksInTurn(a: Script, b: Script, c: Script, total: nat, first: nat, second: nat, end: nat,
                                      size: nat)
    requires After(total, a) == first && After(first, b) == second && After(second, c) == end
    ensures AsksFor(Then(a, Then(b, c)), total, size) <==>
            AsksFor(a, total, size) || AsksFor(b, first, size) || AsksFor(c, second, size)
    ensures After(total, Then(a, Then(b, c))) == end
  {
    AsksThen(b, c, first, second, end, size);
    AsksThen(a, Then(b, c), total, first, end, size);
  }

  // ----- Work and structures

  /** One of the requests, on top of what is retained. */
  predicate Requested(requests: seq<nat>, total: nat, size: nat)
  {
    exists r :: r in requests && size == total + r
  }

  lemma {:induction false} TemporariesAskFor(requests: seq<nat>, total: nat, size: nat)
    ensures AsksFor(Temporaries(requests), total, size) <==> Requested(requests, total, size)
    ensures After(total, Temporaries(requests)) == total
    decreases |requests|
  {
    if requests != [] {
      var front, last := requests[..|requests| - 1], requests[|requests| - 1];
      TemporariesAskFor(front, total, size);
      AsksThen(Temporaries(front), Use(Temporary(last)), total, total, total, size);
      RequestedNext(front, last, total, size);
      assert requests == front + [last];
    }
  }

  lemma {:induction false} RequestedNext(front: seq<nat>, last: nat, total: nat, size: nat)
    ensures Requested(front + [last], total, size) <==> Requested(front, total, size) || size == total + last
  {
    var requests := front + [last];
    assert last in requests && forall r :: r in requests <==> r in front || r == last;
  }

  lemma {:induction false} WorkAsksFor(w: Work, total: nat, size: nat)
    ensures AsksFor(WorkScript(w), total, size) <==> Requested(w.requests, total, size)
    ensures After(total, WorkScript(w)) == total
  {
    TemporariesAskFor(w.requests, total, size);
    AsksThen(Temporaries(w.requests), Use(Guard(w.halts)), total, total, total, size);
  }

  function KeptBytes(present: bool, bytes: nat): nat { if present then bytes else 0 }

  /** The workspaces of building a structure, and the structure itself if it is kept. */
  predicate KeepPeak(w: Work, present: bool, bytes: nat, total: nat, size: nat)
  {
    Requested(w.requests, total, size) || (present && size == total + bytes)
  }

  lemma {:induction false} KeepAsksFor(w: Work, present: bool, bytes: nat, total: nat, size: nat)
    ensures AsksFor(KeepScript(w, present, bytes), total, size) <==> KeepPeak(w, present, bytes, total, size)
    ensures After(total, KeepScript(w, present, bytes)) == total + KeptBytes(present, bytes)
  {
    WorkAsksFor(w, total, size);
    var rest := if present then Use(Retained(bytes)) else Idle;
    AsksThen(WorkScript(w), rest, total, total, total + KeptBytes(present, bytes), size);
  }

  // ----- Documents

  function OriginBytes(o: Options, d: Source): nat
  {
    if o.collect then TableBytes(d.origins) + TableBytes(d.raw) else 0
  }

  /** Both origin tables if they are collected, the second on top of the first. */
  predicate OriginPeak(o: Options, d: Source, total: nat, size: nat)
  {
    && o.collect
    && (|| KeepPeak(d.originWork, true, TableBytes(d.origins), total, size)
        || KeepPeak(d.rawWork, true, TableBytes(d.raw), total + TableBytes(d.origins), size))
  }

  lemma {:induction false} OriginAsksFor(o: Options, d: Source, total: nat, size: nat)
    ensures AsksFor(OriginScript(o, d), total, size) <==> OriginPeak(o, d, total, size)
    ensures After(total, OriginScript(o, d)) == total + OriginBytes(o, d)
  {
    if o.collect {
      var x, y := TableBytes(d.origins), TableBytes(d.raw);
      KeepAsksFor(d.originWork, true, x, total, size);
      KeepAsksFor(d.rawWork, true, y, total + x, size);
      AsksThen(KeepScript(d.originWork, true, x), KeepScript(d.rawWork, true, y), total, total + x, total + x + y,
               size);
    }
  }

  /** What a document leaves: source map, origins and report. */
  function PartBytes(o: Options, d: Source): nat
  {
    KeptBytes(o.preserve, SourceBytes(d.source)) + OriginBytes(o, d) + KeptBytes(d.rdf.Some?, RdfOr(d.rdf))
  }

  /** Its parts, each on top of those before it. */
  predicate RowsPeak(o: Options, d: Source, total: nat, size: nat)
  {
    var first := total + KeptBytes(o.preserve, SourceBytes(d.source));
    var second := first + OriginBytes(o, d);
    || KeepPeak(d.sourceWork, o.preserve, SourceBytes(d.source), total, size)
    || OriginPeak(o, d, first, size)
    || KeepPeak(d.rdfWork, d.rdf.Some?, RdfOr(d.rdf), second, size)
  }

  lemma {:induction false} RowsAskFor(o: Options, d: Source, total: nat, size: nat)
    ensures AsksFor(RowsScript(o, d), total, size) <==> RowsPeak(o, d, total, size)
    ensures After(total, RowsScript(o, d)) == total + PartBytes(o, d)
  {
    var first := total + KeptBytes(o.preserve, SourceBytes(d.source));
    var second := first + OriginBytes(o, d);
    KeepAsksFor(d.sourceWork, o.preserve, SourceBytes(d.source), total, size);
    OriginAsksFor(o, d, first, size);
    KeepAsksFor(d.rdfWork, d.rdf.Some?, RdfOr(d.rdf), second, size);
    AsksInTurn(SourceScript(o, d), OriginScript(o, d), RdfScript(d), total, first, second,
               total + PartBytes(o, d), size);
  }

  /** A document: its largest row, its parts, and its key on top of them. */
  predicate DocumentPeak(o: Options, row: nat, d: Source, total: nat, size: nat)
  {
    size == total + row || RowsPeak(o, d, total, size) || size == total + PartBytes(o, d) + d.key
  }

  lemma {:induction false} DocumentAsksFor(o: Options, row: nat, d: Source, total: nat, size: nat)
    ensures AsksFor(DocumentScript(o, row, d), total, size) <==> DocumentPeak(o, row, d, total, size)
    ensures After(total, DocumentScript(o, row, d)) == total + PartBytes(o, d) + d.key
  {
    var kept := total + PartBytes(o, d);
    AsksInTurn(Use(Guard(d.cancelled)), Use(Temporary(row)), Use(Guard(d.unreadable)), total, total, total, total,
               size);
    RowsAskFor(o, d, total, size);
    AsksInTurn(Use(Guard(d.unfit)), Use(Temporary(d.key)), Use(Retained(d.key)), kept, kept, kept, kept + d.key, size);
    AsksInTurn(LeadScript(row, d), RowsScript(o, d), KeyScript(d), total, total, kept, kept + d.key, size);
  }

  function DocumentBytes(o: Options, ds: seq<Source>): nat
  {
    if ds == [] then 0
    else DocumentBytes(o, ds[..|ds| - 1]) + PartBytes(o, ds[|ds| - 1]) + ds[|ds| - 1].key
  }

  /** Every document on top of all before it. */
  predicate DocumentsPeak(o: Options, row: nat, ds: seq<Source>, total: nat, size: nat)
  {
    && ds != []
    && (|| DocumentsPeak(o, row, ds[..|ds| - 1], total, size)
        || DocumentPeak(o, row, ds[|ds| - 1], total + DocumentBytes(o, ds[..|ds| - 1]), size))
  }

  lemma {:induction false} DocumentsAskFor(o: Options, row: nat, ds: seq<Source>, total: nat, size: nat)
    ensures AsksFor(DocumentsScript(o, row, ds), total, size) <==> DocumentsPeak(o, row, ds, total, size)
    ensures After(total, DocumentsScript(o, row, ds)) == total + DocumentBytes(o, ds)
    decreases |ds|
  {
    if ds != [] {
      var front, last := ds[..|ds| - 1], ds[|ds| - 1];
      var middle := total + DocumentBytes(o, front);
      DocumentsAskFor(o, row, front, total, size);
      DocumentAsksFor(o, row, last, middle, size);
      AsksThen(DocumentsScript(o, row, front), DocumentScript(o, row, last), total, middle,
               total + DocumentBytes(o, ds), size);
    }
  }

  // ----- Fingerprints and the merge

  function MergedBytes(x: Input): nat { if x.options.collect then TableBytes(x.closure) else 0 }

  /** The logical fingerprint, the largest row for the signature, the merge of the origins if they are
      collected, and what it gave. */
  predicate ClosingPeak(x: Input, total: nat, size: nat)
  {
    || Requested(x.logical.requests, total, size) || size == total + x.row
    || (x.options.collect && Requested(x.merge.requests, total, size))
    || size == total + MergedBytes(x)
  }

  lemma {:induction false} ClosingAsksFor(x: Input, total: nat, size: nat)
    ensures AsksFor(ClosingScript(x), total, size) <==> ClosingPeak(x, total, size)
    ensures After(total, ClosingScript(x)) == total
  {
    var bytes := MergedBytes(x);
    WorkAsksFor(x.logical, total, size);
    AsksInTurn(WorkScript(x.logical), Use(Temporary(x.row)), Use(Guard(x.signature)), total, total, total, total, size);
    WorkAsksFor(x.merge, total, size);
    AsksInTurn(Use(Retained(bytes)), Use(Guard(x.content)), Use(Released(bytes)), total, total + bytes, total + bytes,
               total, size);
    AsksInTurn(FingerprintScript(x), MergeScript(x), DigestScript(x), total, total, total, total, size);
  }

  // ----- The auxiliary plan

  /** A staging table: asked for with its predicted size, and again with its actual one. */
  predicate StagePeak(staged: nat, present: bool, t: StageTable, total: nat, size: nat)
  {
    present && (size == total + staged + t.predicted || size == total + staged + t.actual)
  }

  lemma {:induction false} StageAsksFor(staged: nat, present: bool, t: StageTable, total: nat, size: nat)
    ensures AsksFor(StageScript(staged, present, t), total, size) <==> StagePeak(staged, present, t, total, size)
    ensures After(total, StageScript(staged, present, t)) == total
  {
    if present {
      AsksInTurn(Use(Temporary(staged + t.predicted)), Use(Guard(t.fails)), Use(Temporary(staged + t.actual)),
                 total, total, total, total, size);
    }
  }

  function StagingTables(ds: seq<Prepared>, plan: Plan): nat
  {
    KeptBytes(OriginsPresent(ds), plan.origins.actual) + KeptBytes(OriginsPresent(ds), plan.raw.actual)
      + KeptBytes(SourcesPresent(ds), plan.sources.actual) + KeptBytes(ReportsPresent(ds), plan.reports.actual)
  }

  /** The four staging tables, each on top of those before it, and all of them to be kept. */
  predicate StagingPeak(ds: seq<Prepared>, plan: Plan, total: nat, size: nat)
  {
    var first := KeptBytes(OriginsPresent(ds), plan.origins.actual);
    var second := first + KeptBytes(OriginsPresent(ds), plan.raw.actual);
    var third := second + KeptBytes(SourcesPresent(ds), plan.sources.actual);
    || StagePeak(0, OriginsPresent(ds), plan.origins, total, size)
    || StagePeak(first, OriginsPresent(ds), plan.raw, total, size)
    || StagePeak(second, SourcesPresent(ds), plan.sources, total, size)
    || StagePeak(third, ReportsPresent(ds), plan.reports, total, size)
    || size == total + StagingTables(ds, plan)
  }

  lemma {:induction false} TablesAskFor(ds: seq<Prepared>, plan: Plan, total: nat, size: nat)
    ensures AsksFor(TablesScript(ds, plan), total, size) <==>
      || StagePeak(0, OriginsPresent(ds), plan.origins, total, size)
      || StagePeak(Staged1(ds, plan), OriginsPresent(ds), plan.raw, total, size)
      || StagePeak(Staged2(ds, plan), SourcesPresent(ds), plan.sources, total, size)
      || StagePeak(Staged3(ds, plan), ReportsPresent(ds), plan.reports, total, size)
    ensures After(total, TablesScript(ds, plan)) == total
  {
    var second := StageScript(Staged1(ds, plan), OriginsPresent(ds), plan.raw);
    var third := StageScript(Staged2(ds, plan), SourcesPresent(ds), plan.sources);
    var last := StageScript(Staged3(ds, plan), ReportsPresent(ds), plan.reports);
    StageAsksFor(0, OriginsPresent(ds), plan.origins, total, size);
    StageAsksFor(Staged1(ds, plan), OriginsPresent(ds), plan.raw, total, size);
    StageAsksFor(Staged2(ds, plan), SourcesPresent(ds), plan.sources, total, size);
    StageAsksFor(Staged3(ds, plan), ReportsPresent(ds), plan.reports, total, size);
    AsksInTurn(second, third, last, total, total, total, total, size);
    AsksThen(StageScript(0, OriginsPresent(ds), plan.origins), Then(second, Then(third, last)), total, total, total,
             size);
  }

  lemma {:induction false} GuardsAskFor(halts: seq<bool>, n: nat, total: nat, size: nat)
    ensures !AsksFor(Guards(halts, n), total, size) && After(total, Guards(halts, n)) == total
    decreases n
  {
    if n > 0 {
      GuardsAskFor(halts, n - 1, total, size);
      AsksThen(Guards(halts, n - 1), Use(Guard(HaltsAt(halts, n - 1))), total, total, total, size);
    }
  }

  lemma {:induction false} StagingAsksFor(ds: seq<Prepared>, plan: Plan, total: nat, size: nat)
    ensures AsksFor(StagingScript(ds, plan), total, size) <==> StagingPeak(ds, plan, total, size)
    ensures After(total, StagingScript(ds, plan)) == total + StagingTables(ds, plan)
  {
    var staged := Staged(ds, plan);
    var end := total + staged;
    TablesAskFor(ds, plan, total, size);
    AsksThen(TablesScript(ds, plan), Use(Retained(staged)), total, total, end, size);
    GuardsAskFor(plan.halts, |ds|, end, size);
    AsksThen(Guards(plan.halts, |ds|), Use(Guard(plan.forced)), end, end, end, size);
    AsksInTurn(Use(Require(Aligned(ds))), AllocateScript(ds, plan), GatherScript(ds, plan), total, total, end, end,
               size);
  }

  lemma {:induction false} ConversionAsksFor(plan: Plan, total: nat, size: nat)
    ensures AsksFor(ConversionScript(plan), total, size) <==>
            Requested(plan.conversion.requests, total, size) || size == total + plan.peak
    ensures After(total, ConversionScript(plan)) == total
  {
    WorkAsksFor(plan.conversion, total, size);
    AsksThen(WorkScript(plan.conversion), Use(Temporary(plan.peak)), total, total, total, size);
  }

  lemma {:induction false} StagedTables(ds: seq<Prepared>, plan: Plan)
    ensures Staged(ds, plan) == StagingTables(ds, plan)
  {
  }

  lemma {:induction false} SettleAsksFor(ds: seq<Prepared>, plan: Plan, rest: nat, total: nat, size: nat)
    requires total == rest + AllAuxiliary(ds) + StagingTables(ds, plan)
    ensures AsksFor(SettleScript(ds, plan), total, size) <==> size == rest + plan.owner
    ensures After(total, SettleScript(ds, plan)) == rest + plan.owner
  {
    StagedTables(ds, plan);
    var handed := AllAuxiliary(ds) + Staged(ds, plan);
    AsksThen(Use(Released(handed)), Use(Retained(plan.owner)), total, rest, rest + plan.owner, size);
  }

  lemma {:induction false} PlanTurns(ds: seq<Prepared>, plan: Plan, total: nat, staged: nat, end: nat, size: nat)
    requires After(total, StagingScript(ds, plan)) == staged && After(staged, ConversionScript(plan)) == staged
    requires After(staged, SettleScript(ds, plan)) == end
    ensures AsksFor(PlanScript(ds, plan), total, size) <==>
      || AsksFor(StagingScript(ds, plan), total, size)
      || AsksFor(ConversionScript(plan), staged, size)
      || AsksFor(SettleScript(ds, plan), staged, size)
    ensures After(total, PlanScript(ds, plan)) == end
  {
    AsksInTurn(StagingScript(ds, plan), ConversionScript(plan), SettleScript(ds, plan), total, staged, staged, end,
               size);
  }

  lemma {:induction false} PlanAsksFor(ds: seq<Prepared>, plan: Plan, rest: nat, total: nat, staged: nat, size: nat)
    requires total == rest + AllAuxiliary(ds) && staged == total + StagingTables(ds, plan)
    ensures AsksFor(PlanScript(ds, plan), total, size) <==>
      || StagingPeak(ds, plan, total, size)
      || Requested(plan.conversion.requests, staged, size) || size == staged + plan.peak
      || size == rest + plan.owner
  {
    StagingAsksFor(ds, plan, total, size);
    ConversionAsksFor(plan, staged, size);
    SettleAsksFor(ds, plan, rest, staged, size);
    PlanTurns(ds, plan, total, staged, rest + plan.owner, size);
  }

  lemma {:induction false} PlanLeaves(ds: seq<Prepared>, plan: Plan, rest: nat, total: nat)
    requires total == rest + AllAuxiliary(ds)
    ensures After(total, PlanScript(ds, plan)) == rest + plan.owner
  {
    var staged := total + StagingTables(ds, plan);
    StagingAsksFor(ds, plan, total, 0);
    ConversionAsksFor(plan, staged, 0);
    SettleAsksFor(ds, plan, rest, staged, 0);
    PlanTurns(ds, plan, total, staged, rest + plan.owner, 0);
  }

  // ----- The whole preparation

  function KeyBytes(ds: seq<Source>): nat
  {
    if ds == [] then 0 else KeyBytes(ds[..|ds| - 1]) + ds[|ds| - 1].key
  }

  lemma {:induction false} PartsAndKeys(o: Options, ds: seq<Source>)
    ensures DocumentBytes(o, ds) == AllAuxiliary(Products(o, ds)) + KeyBytes(ds)
    decreases |ds|
  {
    if ds != [] {
      var front, last := ds[..|ds| - 1], ds[|ds| - 1];
      PartsAndKeys(o, front);
      AppendFront(Products(o, front), Product(o, last));
    }
  }

  /** Before the plan: nothing at first, the largest row, the document table as predicted and as it is;
      the documents on top of it; and on top of those, the fingerprints and the merge. */
  predicate ContentPeak(x: Input, size: nat)
  {
    || size == 0 || size == x.row || size == x.predicted || size == x.table
    || DocumentsPeak(x.options, x.row, x.documents, x.table, size)
    || ClosingPeak(x, x.table + DocumentBytes(x.options, x.documents), size)
  }

  lemma {:induction false} ContentAsksFor(x: Input, size: nat)
    ensures AsksFor(ContentScript(x), 0, size) <==> ContentPeak(x, size)
    ensures After(0, ContentScript(x)) == x.table + DocumentBytes(x.options, x.documents)
  {
    var end := x.table + DocumentBytes(x.options, x.documents);
    AsksInTurn(Use(Temporary(0)), Use(Temporary(x.row)), Use(Guard(x.uncountable)), 0, 0, 0, 0, size);
    AsksInTurn(Use(Temporary(x.predicted)), Use(Guard(x.fails)), Use(Retained(x.table)), 0, 0, 0, x.table, size);
    AsksThen(StartScript(x), ReserveScript(x), 0, 0, x.table, size);
    DocumentsAskFor(x.options, x.row, x.documents, x.table, size);
    AsksThen(OpeningScript(x), DocumentsScript(x.options, x.row, x.documents), 0, x.table, end, size);
    ClosingAsksFor(x, end, size);
    AsksThen(TableScript(x), ClosingScript(x), 0, end, end, size);
  }

  lemma {:induction false} EvidenceTurns(x: Input, middle: nat, end: nat, size: nat)
    requires After(0, ContentScript(x)) == middle
    requires After(middle, PlanScript(Products(x.options, x.documents), x.plan)) == end
    ensures size in Asked(0, EvidenceScript(x)) <==>
      || AsksFor(ContentScript(x), 0, size)
      || AsksFor(PlanScript(Products(x.options, x.documents), x.plan), middle, size)
  {
    AsksThen(ContentScript(x), PlanScript(Products(x.options, x.documents), x.plan), 0, middle, end, size);
    AsksThen(PreparationScript(x), Use(Guard(x.cancelled)), 0, end, end, size);
    AsksForAsked(EvidenceScript(x), 0, size);
  }

  lemma {:induction false} AskedFrom(x: Input, ds: seq<Prepared>, rest: nat, total: nat, staged: nat, size: nat)
    requires ds == Products(x.options, x.documents) && total == rest + AllAuxiliary(ds)
    requires total == x.table + DocumentBytes(x.options, x.documents) && staged == total + StagingTables(ds, x.plan)
    ensures size in Asked(0, EvidenceScript(x)) <==>
      || ContentPeak(x, size)
      || StagingPeak(ds, x.plan, total, size)
      || Requested(x.plan.conversion.requests, staged, size) || size == staged + x.plan.peak
      || size == rest + x.plan.owner
  {
    ContentAsksFor(x, size);
    PlanAsksFor(ds, x.plan, rest, total, staged, size);
    PlanLeaves(ds, x.plan, rest, total);
    EvidenceTurns(x, total, rest + x.plan.owner, size);
  }

  /** The preparation asks for these workspaces and for no others, whatever the input: before the plan;
      for the staging tables, on top of the document table, all parts and keys; for the conversion and
      the peak it reports, on top of the staging tables too; and for the owner, in the place of parts and
      staging. */
  lemma {:induction false} AskedInNumbers(x: Input, rest: nat, total: nat, staged: nat, size: nat)
    requires rest == x.table + KeyBytes(x.documents) && total == x.table + DocumentBytes(x.options, x.documents)
    requires staged == total + StagingTables(Products(x.options, x.documents), x.plan)
    ensures size in Asked(0, EvidenceScript(x)) <==>
      || ContentPeak(x, size)
      || StagingPeak(Products(x.options, x.documents), x.plan, total, size)
      || Requested(x.plan.conversion.requests, staged, size) || size == staged + x.plan.peak
      || size == rest + x.plan.owner
  {
    PartsAndKeys(x.options, x.documents);
    AskedFrom(x, Products(x.options, x.documents), rest, total, staged, size);
  }
}
