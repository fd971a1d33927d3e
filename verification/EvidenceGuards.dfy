/** What stops the preparation of closure evidence besides its limits. */
module EvidenceGuards {
  import opened EvidenceLedger
  import opened EvidencePreparation
  import opened AuxiliaryPlan
  import opened ClosureEvidence

  lemma {:induction false} GoesThen(a: Script, b: Script)
    ensures Unguarded(Then(a, b)) <==> Unguarded(a) && Unguarded(b)
  {
  }

  lemma {:induction false} GoesInTurn(a: Script, b: Script, c: Script)
    ensures Unguarded(Then(a, Then(b, c))) <==> Unguarded(a) && Unguarded(b) && Unguarded(c)
  {
    GoesThen(b, c);
    GoesThen(a, Then(b, c));
  }

  lemma {:induction false} TemporariesGo(requests: seq<nat>)
    ensures Unguarded(Temporaries(requests))
    decreases |requests|
  {
    if requests != [] {
      TemporariesGo(requests[..|requests| - 1]);
      GoesThen(Temporaries(requests[..|requests| - 1]), Use(Temporary(requests[|requests| - 1])));
    }
  }

  lemma {:induction false} WorkGoes(w: Work, present: bool, bytes: nat)
    ensures Unguarded(WorkScript(w)) <==> !w.halts
    ensures Unguarded(KeepScript(w, present, bytes)) <==> !w.halts
  {
    TemporariesGo(w.requests);
    GoesThen(Temporaries(w.requests), Use(Guard(w.halts)));
    GoesThen(WorkScript(w), if present then Use(Retained(bytes)) else Idle);
  }

  /** A document goes through: it is not cancelled, readable and fit, and none of its parts fails. */
  predicate DocumentGoes(o: Options, d: Source)
  {
    && !d.cancelled && !d.unreadable && !d.unfit && !d.sourceWork.halts && !d.rdfWork.halts
    && (o.collect ==> !d.originWork.halts && !d.rawWork.halts)
  }

  lemma {:induction false} DocumentUnguarded(o: Options, row: nat, d: Source)
    ensures Unguarded(DocumentScript(o, row, d)) <==> DocumentGoes(o, d)
  {
    WorkGoes(d.sourceWork, o.preserve, SourceBytes(d.source));
    WorkGoes(d.originWork, true, TableBytes(d.origins));
    WorkGoes(d.rawWork, true, TableBytes(d.raw));
    WorkGoes(d.rdfWork, d.rdf.Some?, RdfOr(d.rdf));
    GoesInTurn(Use(Guard(d.cancelled)), Use(Temporary(row)), Use(Guard(d.unreadable)));
    GoesThen(KeepScript(d.originWork, true, TableBytes(d.origins)), KeepScript(d.rawWork, true, TableBytes(d.raw)));
    GoesInTurn(SourceScript(o, d), OriginScript(o, d), RdfScript(d));
    GoesInTurn(Use(Guard(d.unfit)), Use(Temporary(d.key)), Use(Retained(d.key)));
    GoesInTurn(LeadScript(row, d), RowsScript(o, d), KeyScript(d));
  }

  predicate DocumentsGo(o: Options, ds: seq<Source>)
  {
    ds == [] || (DocumentsGo(o, ds[..|ds| - 1]) && DocumentGoes(o, ds[|ds| - 1]))
  }

  lemma {:induction false} DocumentsUnguarded(o: Options, row: nat, ds: seq<Source>)
    ensures Unguarded(DocumentsScript(o, row, ds)) <==> DocumentsGo(o, ds)
    decreases |ds|
  {
    if ds != [] {
      DocumentsUnguarded(o, row, ds[..|ds| - 1]);
      DocumentUnguarded(o, row, ds[|ds| - 1]);
      GoesThen(DocumentsScript(o, row, ds[..|ds| - 1]), DocumentScript(o, row, ds[|ds| - 1]));
    }
  }

  lemma {:induction false} ContentUnguarded(x: Input)
    ensures Unguarded(ContentScript(x)) <==>
      && !x.uncountable && !x.fails && DocumentsGo(x.options, x.documents)
      && !x.logical.halts && !x.signature && (x.options.collect ==> !x.merge.halts) && !x.content
  {
    GoesInTurn(Use(Temporary(0)), Use(Temporary(x.row)), Use(Guard(x.uncountable)));
    GoesInTurn(Use(Temporary(x.predicted)), Use(Guard(x.fails)), Use(Retained(x.table)));
    GoesThen(StartScript(x), ReserveScript(x));
    DocumentsUnguarded(x.options, x.row, x.documents);
    GoesThen(OpeningScript(x), DocumentsScript(x.options, x.row, x.documents));
    ClosingUnguarded(x);
    GoesThen(TableScript(x), ClosingScript(x));
  }

  lemma {:induction false} ClosingUnguarded(x: Input)
    ensures Unguarded(ClosingScript(x)) <==>
      !x.logical.halts && !x.signature && (x.options.collect ==> !x.merge.halts) && !x.content
  {
    WorkGoes(x.logical, false, 0);
    WorkGoes(x.merge, false, 0);
    GoesInTurn(WorkScript(x.logical), Use(Temporary(x.row)), Use(Guard(x.signature)));
    var bytes := TableOr(MergedOrigins(x));
    GoesInTurn(Use(Retained(bytes)), Use(Guard(x.content)), Use(Released(bytes)));
    GoesInTurn(FingerprintScript(x), MergeScript(x), DigestScript(x));
  }

  /** The plan goes through: the tables that are needed can be allocated, and neither a checkpoint nor
      the conversion fails. */
  predicate PlanGoes(ds: seq<Prepared>, plan: Plan)
  {
    && (OriginsPresent(ds) ==> !plan.origins.fails && !plan.raw.fails)
    && (SourcesPresent(ds) ==> !plan.sources.fails) && (ReportsPresent(ds) ==> !plan.reports.fails)
    && (forall i: nat | i < |ds| && i < |plan.halts| :: !plan.halts[i]) && !plan.forced && !plan.conversion.halts
  }

  lemma {:induction false} GuardsGo(halts: seq<bool>, n: nat)
    ensures Unguarded(Guards(halts, n)) <==> forall i: nat | i < n && i < |halts| :: !halts[i]
    decreases n
  {
    if n > 0 {
      GuardsGo(halts, n - 1);
      GoesThen(Guards(halts, n - 1), Use(Guard(HaltsAt(halts, n - 1))));
    }
  }

  lemma {:induction false} PlanUnguarded(ds: seq<Prepared>, plan: Plan)
    requires Aligned(ds)
    ensures Unguarded(PlanScript(ds, plan)) <==> PlanGoes(ds, plan)
  {
    GuardsGo(plan.halts, |ds|);
    WorkGoes(plan.conversion, false, 0);
    TablesUnguarded(ds, plan);
    GoesThen(Guards(plan.halts, |ds|), Use(Guard(plan.forced)));
    GoesThen(TablesScript(ds, plan), Use(Retained(Staged(ds, plan))));
    GoesInTurn(Use(Require(Aligned(ds))), AllocateScript(ds, plan), GatherScript(ds, plan));
    GoesThen(WorkScript(plan.conversion), Use(Temporary(plan.peak)));
    GoesThen(Use(Released(AllAuxiliary(ds) + Staged(ds, plan))), Use(Retained(plan.owner)));
    GoesInTurn(StagingScript(ds, plan), ConversionScript(plan), SettleScript(ds, plan));
  }

  lemma {:induction false} TablesUnguarded(ds: seq<Prepared>, plan: Plan)
    ensures Unguarded(TablesScript(ds, plan)) <==>
      && (OriginsPresent(ds) ==> !plan.origins.fails && !plan.raw.fails)
      && (SourcesPresent(ds) ==> !plan.sources.fails) && (ReportsPresent(ds) ==> !plan.reports.fails)
  {
    StageGoes(0, OriginsPresent(ds), plan.origins);
    StageGoes(Staged1(ds, plan), OriginsPresent(ds), plan.raw);
    StageGoes(Staged2(ds, plan), SourcesPresent(ds), plan.sources);
    StageGoes(Staged3(ds, plan), ReportsPresent(ds), plan.reports);
    var second := StageScript(Staged1(ds, plan), OriginsPresent(ds), plan.raw);
    var third := StageScript(Staged2(ds, plan), SourcesPresent(ds), plan.sources);
    var last := StageScript(Staged3(ds, plan), ReportsPresent(ds), plan.reports);
    GoesInTurn(second, third, last);
    GoesThen(StageScript(0, OriginsPresent(ds), plan.origins), Then(second, Then(third, last)));
  }

  lemma {:induction false} StageGoes(staged: nat, present: bool, t: StageTable)
    ensures Unguarded(StageScript(staged, present, t)) <==> (present ==> !t.fails)
  {
    GoesInTurn(Use(Temporary(staged + t.predicted)), Use(Guard(t.fails)), Use(Temporary(staged + t.actual)));
  }

  /** Apart from the limits, the preparation is stopped by exactly these failures. */
  lemma {:induction false} UnguardedExactly(x: Input)
    ensures Unguarded(EvidenceScript(x)) <==>
      && !x.uncountable && !x.fails && DocumentsGo(x.options, x.documents)
      && !x.logical.halts && !x.signature && (x.options.collect ==> !x.merge.halts) && !x.content
      && PlanGoes(Products(x.options, x.documents), x.plan) && !x.cancelled
  {
    ContentUnguarded(x);
    AlwaysAligned(x.options, x.documents);
    PlanUnguarded(Products(x.options, x.documents), x.plan);
    GoesThen(ContentScript(x), PlanScript(Products(x.options, x.documents), x.plan));
    GoesThen(PreparationScript(x), Use(Guard(x.cancelled)));
  }
}
