/** When a preparation of closure evidence ends in the conversion of its auxiliary rows, and why
    the ledger then retains more than is owned. */
module AbandonedConversion {
  import opened Ordering
  import opened EvidenceLedger
  import opened EvidencePreparation
  import opened AuxiliaryPlan
  import opened ClosureEvidence

  // ----- Scripts that release nothing

  /** The script releases nothing, and adds that much to a ledger that retains `total`. */
  predicate Grows(script: Script, total: nat, more: nat)
  {
    KeepsAll(script) && After(total, script) == total + more
  }

  lemma GrowsUse(e: Entry, total: nat)
    requires !e.Released?
    ensures Grows(Use(e), total, if e.Retained? then e.bytes else 0)
  {
  }

  lemma GrowsThen(a: Script, b: Script, total: nat, x: nat, y: nat)
    requires Grows(a, total, x) && Grows(b, total + x, y)
    ensures Grows(Then(a, b), total, x + y)
  {
  }

  lemma GrowsThree(a: Entry, b: Entry, c: Entry, total: nat)
    requires !a.Released? && !b.Released? && !c.Released? && !a.Retained? && !b.Retained?
    ensures Grows(Then(Use(a), Then(Use(b), Use(c))), total, if c.Retained? then c.bytes else 0)
  {
    GrowsUse(a, total);
    GrowsUse(b, total);
    GrowsUse(c, total);
    GrowsThen(Use(b), Use(c), total, 0, if c.Retained? then c.bytes else 0);
    GrowsThen(Use(a), Then(Use(b), Use(c)), total, 0, if c.Retained? then c.bytes else 0);
  }

  lemma {:induction false} TemporariesGrow(requests: seq<nat>, total: nat)
    ensures Grows(Temporaries(requests), total, 0)
    decreases |requests|
  {
    if requests != [] {
      var front, last := requests[..|requests| - 1], requests[|requests| - 1];
      TemporariesGrow(front, total);
      GrowsUse(Temporary(last), total);
      GrowsThen(Temporaries(front), Use(Temporary(last)), total, 0, 0);
    }
  }

  lemma WorkGrows(w: Work, total: nat)
    ensures Grows(WorkScript(w), total, 0)
  {
    TemporariesGrow(w.requests, total);
    GrowsUse(Guard(w.halts), total);
    GrowsThen(Temporaries(w.requests), Use(Guard(w.halts)), total, 0, 0);
  }

  lemma KeepGrows(w: Work, present: bool, bytes: nat, total: nat)
    ensures Grows(KeepScript(w, present, bytes), total, if present then bytes else 0)
  {
    WorkGrows(w, total);
    if present {
      GrowsUse(Retained(bytes), total);
      GrowsThen(WorkScript(w), Use(Retained(bytes)), total, 0, bytes);
    } else {
      GrowsThen(WorkScript(w), Idle, total, 0, 0);
    }
  }

  lemma OriginsGrow(o: Options, d: Source, total: nat)
    ensures Grows(OriginScript(o, d), total, TableOr(Product(o, d).origins) + TableOr(Product(o, d).raw))
  {
    if o.collect {
      var x, y := TableBytes(d.origins), TableBytes(d.raw);
      KeepGrows(d.originWork, true, x, total);
      KeepGrows(d.rawWork, true, y, total + x);
      GrowsThen(KeepScript(d.originWork, true, x), KeepScript(d.rawWork, true, y), total, x, y);
    }
  }

  lemma RowsGrow(o: Options, d: Source, total: nat)
    ensures Grows(RowsScript(o, d), total, AuxiliaryBytes(Product(o, d)))
  {
    var p := Product(o, d);
    var x, y, z := SourceOr(p.source), TableOr(p.origins) + TableOr(p.raw), RdfOr(p.rdf);
    KeepGrows(d.sourceWork, o.preserve, SourceBytes(d.source), total);
    OriginsGrow(o, d, total + x);
    KeepGrows(d.rdfWork, d.rdf.Some?, RdfOr(d.rdf), total + x + y);
    GrowsThen(OriginScript(o, d), RdfScript(d), total + x, y, z);
    GrowsThen(SourceScript(o, d), Then(OriginScript(o, d), RdfScript(d)), total, x, y + z);
  }

  /** A document adds its rows and its key. */
  lemma DocumentGrows(o: Options, row: nat, d: Source, total: nat)
    ensures Grows(DocumentScript(o, row, d), total, AuxiliaryBytes(Product(o, d)) + d.key)
  {
    var x := AuxiliaryBytes(Product(o, d));
    GrowsThree(Guard(d.cancelled), Temporary(row), Guard(d.unreadable), total);
    RowsGrow(o, d, total);
    GrowsThree(Guard(d.unfit), Temporary(d.key), Retained(d.key), total + x);
    GrowsThen(RowsScript(o, d), KeyScript(d), total, x, d.key);
    GrowsThen(LeadScript(row, d), Then(RowsScript(o, d), KeyScript(d)), total, 0, x + d.key);
  }

  lemma {:induction false} DocumentsGrow(o: Options, row: nat, ds: seq<Source>, total: nat)
    ensures Grows(DocumentsScript(o, row, ds), total, AllAuxiliary(Products(o, ds)) + AllKeys(Products(o, ds)))
    decreases |ds|
  {
    if ds != [] {
      var front, last := ds[..|ds| - 1], ds[|ds| - 1];
      var x := AllAuxiliary(Products(o, front)) + AllKeys(Products(o, front));
      DocumentsGrow(o, row, front, total);
      DocumentGrows(o, row, last, total + x);
      AppendFront(Products(o, front), Product(o, last));
      GrowsThen(DocumentsScript(o, row, front), DocumentScript(o, row, last), total, x,
                AuxiliaryBytes(Product(o, last)) + last.key);
    }
  }

  lemma {:induction false} GuardsGrow(halts: seq<bool>, n: nat, total: nat)
    ensures Grows(Guards(halts, n), total, 0)
    decreases n
  {
    if n > 0 {
      GuardsGrow(halts, n - 1, total);
      GrowsUse(Guard(HaltsAt(halts, n - 1)), total);
      GrowsThen(Guards(halts, n - 1), Use(Guard(HaltsAt(halts, n - 1))), total, 0, 0);
    }
  }

  // ----- Up to the conversion

  /** Everything before the conversion. */
  function ReachingScript(x: Input): Script
  {
    Then(ContentScript(x), StagingScript(Products(x.options, x.documents), x.plan))
  }

  lemma TableGrows(x: Input)
    ensures Grows(TableScript(x), 0, x.table + (AllAuxiliary(Products(x.options, x.documents))
                                                + AllKeys(Products(x.options, x.documents))))
  {
    GrowsThree(Temporary(0), Temporary(x.row), Guard(x.uncountable), 0);
    GrowsThree(Temporary(x.predicted), Guard(x.fails), Retained(x.table), 0);
    GrowsThen(StartScript(x), ReserveScript(x), 0, 0, x.table);
    DocumentsGrow(x.options, x.row, x.documents, x.table);
    GrowsThen(OpeningScript(x), DocumentsScript(x.options, x.row, x.documents), 0, x.table,
              AllAuxiliary(Products(x.options, x.documents)) + AllKeys(Products(x.options, x.documents)));
  }

  lemma FingerprintGrows(x: Input, total: nat)
    ensures Grows(FingerprintScript(x), total, 0) && Grows(MergeScript(x), total, 0)
  {
    WorkGrows(x.logical, total);
    WorkGrows(x.merge, total);
    GrowsUse(Temporary(x.row), total);
    GrowsUse(Guard(x.signature), total);
    GrowsThen(Use(Temporary(x.row)), Use(Guard(x.signature)), total, 0, 0);
    GrowsThen(WorkScript(x.logical), Then(Use(Temporary(x.row)), Use(Guard(x.signature))), total, 0, 0);
  }

  lemma SolventThen(a: Script, b: Script, total: nat)
    requires Solvent(total, a) && Solvent(After(total, a), b)
    ensures Solvent(total, Then(a, b)) && After(total, Then(a, b)) == After(After(total, a), b)
  {
  }

  /** The merged origins are released in full, because they were entered just before. */
  lemma DigestCovered(x: Input, total: nat)
    ensures Solvent(total, DigestScript(x)) && After(total, DigestScript(x)) == total
  {
    var bytes := TableOr(MergedOrigins(x));
    var enter, digest, drop := Use(Retained(bytes)), Use(Guard(x.content)), Use(Released(bytes));
    SolventThen(digest, drop, total + bytes);
    SolventThen(enter, Then(digest, drop), total);
  }

  lemma ContentGrows(x: Input)
    ensures Solvent(0, ContentScript(x))
    ensures After(0, ContentScript(x))
         == x.table + AllAuxiliary(Products(x.options, x.documents)) + AllKeys(Products(x.options, x.documents))
  {
    TableGrows(x);
    var total := After(0, TableScript(x));
    FingerprintGrows(x, total);
    DigestCovered(x, total);
    KeepsAllSolvent(0, TableScript(x));
    KeepsAllSolvent(total, FingerprintScript(x));
    KeepsAllSolvent(total, MergeScript(x));
    SolventThen(MergeScript(x), DigestScript(x), total);
    SolventThen(FingerprintScript(x), Then(MergeScript(x), DigestScript(x)), total);
    SolventThen(TableScript(x), ClosingScript(x), 0);
  }

  lemma StageGrows(staged: nat, present: bool, t: StageTable, total: nat)
    ensures Grows(StageScript(staged, present, t), total, 0)
  {
    if present {
      GrowsThree(Temporary(staged + t.predicted), Guard(t.fails), Temporary(staged + t.actual), total);
    }
  }

  lemma TablesGrow(ds: seq<Prepared>, plan: Plan, total: nat)
    ensures Grows(TablesScript(ds, plan), total, 0)
  {
    var first := StageScript(0, OriginsPresent(ds), plan.origins);
    var second := StageScript(Staged1(ds, plan), OriginsPresent(ds), plan.raw);
    var third := StageScript(Staged2(ds, plan), SourcesPresent(ds), plan.sources);
    var last := StageScript(Staged3(ds, plan), ReportsPresent(ds), plan.reports);
    StageGrows(0, OriginsPresent(ds), plan.origins, total);
    StageGrows(Staged1(ds, plan), OriginsPresent(ds), plan.raw, total);
    StageGrows(Staged2(ds, plan), SourcesPresent(ds), plan.sources, total);
    StageGrows(Staged3(ds, plan), ReportsPresent(ds), plan.reports, total);
    GrowsThen(third, last, total, 0, 0);
    GrowsThen(second, Then(third, last), total, 0, 0);
    GrowsThen(first, Then(second, Then(third, last)), total, 0, 0);
  }

  lemma StagingGrows(ds: seq<Prepared>, plan: Plan, total: nat)
    ensures Grows(StagingScript(ds, plan), total, Staged(ds, plan))
  {
    var staged := Staged(ds, plan);
    TablesGrow(ds, plan, total);
    GrowsUse(Retained(staged), total);
    GrowsThen(TablesScript(ds, plan), Use(Retained(staged)), total, 0, staged);
    GuardsGrow(plan.halts, |ds|, total + staged);
    GrowsUse(Guard(plan.forced), total + staged);
    GrowsThen(Guards(plan.halts, |ds|), Use(Guard(plan.forced)), total + staged, 0, 0);
    GrowsThen(AllocateScript(ds, plan), GatherScript(ds, plan), total, staged, 0);
    GrowsUse(Require(Aligned(ds)), total);
    GrowsThen(Use(Require(Aligned(ds))), Then(AllocateScript(ds, plan), GatherScript(ds, plan)), total, 0, staged);
  }

  /** Nothing stops the preparation before the conversion. */
  ghost predicate ReachesConversion(x: Input)
  {
    Unguarded(ReachingScript(x)) && AllAdmitted(x.limits, x.base, Asked(0, ReachingScript(x)))
  }

  /** What is retained when the conversion starts: table, keys and everything it is handed. */
  function AtConversion(x: Input): nat
  {
    x.table + AllKeys(Products(x.options, x.documents)) + Handed(x)
  }

  lemma ReachingGrows(x: Input)
    ensures Solvent(0, ReachingScript(x)) && After(0, ReachingScript(x)) == AtConversion(x)
  {
    ContentGrows(x);
    var total := After(0, ContentScript(x));
    var staging := StagingScript(Products(x.options, x.documents), x.plan);
    StagingGrows(Products(x.options, x.documents), x.plan, total);
    KeepsAllSolvent(total, staging);
    SolventThen(ContentScript(x), staging, 0);
  }

  // ----- The conversion

  /** The requests on top of what is retained. */
  function OnTop(total: nat, requests: seq<nat>): (peaks: seq<nat>)
    ensures |peaks| == |requests| && forall i | 0 <= i < |peaks| :: peaks[i] == total + requests[i]
  {
    if requests == [] then []
    else OnTop(total, requests[..|requests| - 1]) + [total + requests[|requests| - 1]]
  }

  lemma {:induction false} TemporariesAsk(requests: seq<nat>, total: nat)
    ensures Asked(total, Temporaries(requests)) == OnTop(total, requests) && Unguarded(Temporaries(requests))
    decreases |requests|
  {
    if requests != [] {
      TemporariesAsk(requests[..|requests| - 1], total);
      TemporariesGrow(requests[..|requests| - 1], total);
    }
  }

  /** One of the requests is refused on top of what is retained. */
  predicate Refuses(limits: Limits, base: nat, total: nat, requests: seq<nat>)
  {
    exists r | r in requests :: !Admits(limits, base, total + r)
  }

  /** The conversion stops by itself, or it asks for a workspace that is refused, or the peak it
      reports is. */
  predicate ConversionStops(x: Input)
  {
    x.plan.conversion.halts || Refuses(x.limits, x.base, AtConversion(x), x.plan.conversion.requests + [x.plan.peak])
  }

  lemma ConversionAsks(plan: Plan, total: nat)
    ensures Asked(total, ConversionScript(plan)) == OnTop(total, plan.conversion.requests + [plan.peak])
    ensures Unguarded(ConversionScript(plan)) <==> !plan.conversion.halts
    ensures KeepsAll(ConversionScript(plan))
  {
    var work := plan.conversion;
    TemporariesAsk(work.requests, total);
    TemporariesGrow(work.requests, total);
    WorkGrows(work, total);
    GrowsUse(Temporary(plan.peak), total);
    GrowsThen(WorkScript(work), Use(Temporary(plan.peak)), total, 0, 0);
    assert Asked(total, WorkScript(work)) == OnTop(total, work.requests) + [];
    assert Asked(total, ConversionScript(plan)) == OnTop(total, work.requests) + [total + plan.peak];
    AppendFront(work.requests, plan.peak);
    assert Unguarded(WorkScript(work)) <==> !work.halts;
  }

  lemma OnTopAdmitted(limits: Limits, base: nat, total: nat, requests: seq<nat>)
    ensures AllAdmitted(limits, base, OnTop(total, requests)) <==> !Refuses(limits, base, total, requests)
  {
    if AllAdmitted(limits, base, OnTop(total, requests)) {
      forall i | 0 <= i < |requests|
        ensures Admits(limits, base, total + requests[i])
      {
        assert OnTop(total, requests)[i] in OnTop(total, requests);
      }
    }
    if !Refuses(limits, base, total, requests) {
      forall i | 0 <= i < |requests|
        ensures Admits(limits, base, OnTop(total, requests)[i])
      {
        assert requests[i] in requests;
      }
    }
  }

  lemma ConversionVerdict(x: Input, s: Ledger)
    requires s.outcome == Done && s.retained == AtConversion(x)
    ensures Run(x.limits, x.base, s, ConversionScript(x.plan)).outcome != Done <==> ConversionStops(x)
  {
    var script, total := ConversionScript(x.plan), AtConversion(x);
    ConversionAsks(x.plan, total);
    KeepsAllSolvent(total, script);
    SolventVerdict(x.limits, x.base, s, script);
    OnTopAdmitted(x.limits, x.base, total, x.plan.conversion.requests + [x.plan.peak]);
  }

  /** A preparation is lost in the conversion exactly when nothing stops it before and the
      conversion itself is stopped, by its own failure or by a workspace that is refused on top of
      table, keys and what it was handed. */
  lemma LostExactly(x: Input)
    ensures LostInConversion(x) <==> ReachesConversion(x) && ConversionStops(x)
  {
    ReachingGrows(x);
    SolventVerdict(x.limits, x.base, EMPTY, ReachingScript(x));
    Verdict(x.limits, x.base, EMPTY, ReachingScript(x));
    var s := Run(x.limits, x.base, EMPTY, ContentScript(x));
    var staging := StagingScript(Products(x.options, x.documents), x.plan);
    RunThen(x.limits, x.base, EMPTY, ContentScript(x), staging);
    var t := Run(x.limits, x.base, s, staging);
    if t.outcome == Done {
      ConversionVerdict(x, t);
    }
  }

  // ----- Runs ahead

  /** Sizes that structures can have: a table has room for its rows. */
  predicate PossibleTable(t: RowTable) { |t.capacities| <= t.outer }

  predicate PossibleDocument(d: Source)
  {
    && PossibleTable(d.source.entries) && PossibleTable(d.source.prefixes)
    && PossibleTable(d.origins) && PossibleTable(d.raw) && d.key > 0
    && (d.rdf.Some? ==>
          && PossibleTable(d.rdf.value.unconsumed) && PossibleTable(d.rdf.value.rules)
          && PossibleTable(d.rdf.value.diagnostics))
  }

  /** An allocation for that many items gets at least what it asks for, and no item is empty. */
  predicate PossibleStage(t: StageTable, count: nat) { count <= t.predicted <= t.actual }

  predicate Possible(x: Input)
  {
    && |x.documents| <= x.predicted <= x.table
    && (forall d | d in x.documents :: PossibleDocument(d))
    && PossibleStage(x.plan.origins, |x.documents|) && PossibleStage(x.plan.raw, |x.documents|)
    && PossibleStage(x.plan.sources, |x.documents|) && PossibleStage(x.plan.reports, |x.documents|)
    && |x.plan.halts| == |x.documents|
  }

  /** The same preparation with a conversion that asks for that much. */
  function Overreaching(x: Input, request: nat): Input
  {
    x.(plan := x.plan.(conversion := Work([request], false)))
  }

  lemma SourceMapsHanded(x: Input)
    requires Possible(x) && x.options.preserve && x.documents != []
    ensures Handed(x) > 0
  {
    var ds := Products(x.options, x.documents);
    ProductsHave(x.options, x.documents);
    AlignedAt(ds, x.options.preserve, x.options.collect, 0);
  }

  /** Every preparation that reaches the conversion, whatever its documents and limits, is lost in it
      when the conversion asks for more than the limit; with source maps the ledger then retains
      more than is owned. */
  lemma LedgerRunsAhead(x: Input, request: nat)
    requires ReachesConversion(x) && request > x.limits.temporary
    ensures var y := Overreaching(x, request);
      && LostInConversion(y) && y.documents == x.documents && y.options == x.options && Handed(y) == Handed(x)
      && (Possible(x) ==> Possible(y))
      && (Possible(x) && x.options.preserve && x.documents != [] ==> Handed(y) > 0)
  {
    var y := Overreaching(x, request);
    assert ReachingScript(y) == ReachingScript(x);
    LostExactly(y);
    assert request in y.plan.conversion.requests + [y.plan.peak];
    if Possible(x) && x.options.preserve && x.documents != [] {
      SourceMapsHanded(x);
    }
  }

  // ----- Such a preparation

  const IDLE: Work := Work([], false)

  /** One document with a source map of one row, and sizes to match. */
  function Modest(): Input
  {
    var stage := StageTable(24, false, 24);
    var source := SourceMap(RowTable([5], 1), TAKEN);
    Input(Limits(1000, None), 0, 9, false, 200, false, 200, Options(true, false),
          [Source(false, false, IDLE, source, IDLE, TAKEN, IDLE, TAKEN, IDLE, None, false, 3)],
          IDLE, false, IDLE, TAKEN, false, Plan(stage, stage, stage, stage, [false], false, IDLE, 0, 50), false)
  }

  /** No guard stops the script, and it asks for that many bytes in all. */
  predicate Light(script: Script, volume: nat) { Unguarded(script) && Volume(script) == volume }

  lemma LightThen(a: Script, b: Script, x: nat, y: nat)
    requires Light(a, x) && Light(b, y)
    ensures Light(Then(a, b), x + y)
  {
  }

  lemma LightThree(a: Entry, b: Entry, c: Entry, x: nat, y: nat, z: nat)
    requires Light(Use(a), x) && Light(Use(b), y) && Light(Use(c), z)
    ensures Light(Then(Use(a), Then(Use(b), Use(c))), x + y + z)
  {
    LightThen(Use(b), Use(c), y, z);
    LightThen(Use(a), Then(Use(b), Use(c)), x, y + z);
  }

  lemma LightIdle(present: bool, bytes: nat)
    ensures Light(WorkScript(IDLE), 0) && Light(KeepScript(IDLE, present, bytes), if present then bytes else 0)
  {
    assert Light(Temporaries([]), 0);
    LightThen(Temporaries([]), Use(Guard(false)), 0, 0);
    LightThen(WorkScript(IDLE), if present then Use(Retained(bytes)) else Idle, 0, if present then bytes else 0);
  }

  lemma ModestSource()
    ensures SourceBytes(Modest().documents[0].source) == 29
  {
    var t := RowTable([5], 1);
    assert t.capacities[..0] == [] && TableBytes(RowTable([], 1)) == 24 && TableBytes(t) == 29;
    assert TableBytes(TAKEN) == 0;
  }

  lemma ModestDocument(o: Options, d: Source)
    requires o == Options(true, false) && d == Modest().documents[0]
    ensures Light(DocumentScript(o, 9, d), 44)
  {
    ModestSource();
    LightThree(Guard(false), Temporary(9), Guard(false), 0, 9, 0);
    LightIdle(true, 29);
    LightIdle(false, 0);
    LightThen(OriginScript(o, d), RdfScript(d), 0, 0);
    LightThen(SourceScript(o, d), Then(OriginScript(o, d), RdfScript(d)), 29, 0);
    LightThree(Guard(false), Temporary(3), Retained(3), 0, 3, 3);
    LightThen(RowsScript(o, d), KeyScript(d), 29, 6);
    LightThen(LeadScript(9, d), Then(RowsScript(o, d), KeyScript(d)), 9, 35);
  }

  lemma {:induction false} ModestOpening(x: Input)
    requires x == Modest()
    ensures Light(OpeningScript(x), 409)
  {
    LightThree(Temporary(0), Temporary(9), Guard(false), 0, 9, 0);
    LightThree(Temporary(200), Guard(false), Retained(200), 200, 0, 200);
    LightThen(StartScript(x), ReserveScript(x), 9, 400);
  }

  lemma {:induction false} ModestTable(x: Input)
    requires x == Modest()
    ensures Light(TableScript(x), 453)
  {
    var o, d := x.options, x.documents[0];
    ModestOpening(x);
    ModestDocument(o, d);
    assert [d][..0] == [] && DocumentsScript(o, 9, [d]) == Then(Idle, DocumentScript(o, 9, d));
    LightThen(Idle, DocumentScript(o, 9, d), 0, 44);
    LightThen(OpeningScript(x), DocumentsScript(o, 9, [d]), 409, 44);
  }

  lemma ModestClosing(x: Input)
    requires x == Modest()
    ensures Light(ClosingScript(x), 9)
  {
    LightIdle(false, 0);
    LightThen(Use(Temporary(9)), Use(Guard(false)), 9, 0);
    LightThen(WorkScript(IDLE), Then(Use(Temporary(9)), Use(Guard(false))), 0, 9);
    LightThree(Retained(0), Guard(false), Released(0), 0, 0, 0);
    LightThen(MergeScript(x), DigestScript(x), 0, 0);
    LightThen(FingerprintScript(x), Then(MergeScript(x), DigestScript(x)), 9, 0);
  }

  lemma {:induction false} ModestContent(x: Input)
    requires x == Modest()
    ensures Light(ContentScript(x), 462)
  {
    ModestTable(x);
    ModestClosing(x);
    LightThen(TableScript(x), ClosingScript(x), 453, 9);
  }

  lemma {:induction false} ModestTables(ds: seq<Prepared>, plan: Plan)
    requires plan.sources == StageTable(24, false, 24)
    requires !OriginsPresent(ds) && SourcesPresent(ds) && !ReportsPresent(ds)
    ensures Light(TablesScript(ds, plan), 48) && Staged(ds, plan) == 24
  {
    var third := StageScript(0, true, plan.sources);
    LightThree(Temporary(24), Guard(false), Temporary(24), 24, 0, 24);
    LightThen(third, Idle, 48, 0);
    LightThen(Idle, Then(third, Idle), 0, 48);
    LightThen(Idle, Then(Idle, Then(third, Idle)), 0, 48);
  }

  lemma {:induction false} ModestGather(halts: seq<bool>)
    requires !HaltsAt(halts, 0)
    ensures Light(Then(Guards(halts, 1), Use(Guard(false))), 0)
  {
    assert Light(Guards(halts, 0), 0);
    LightThen(Guards(halts, 0), Use(Guard(HaltsAt(halts, 0))), 0, 0);
    LightThen(Guards(halts, 1), Use(Guard(false)), 0, 0);
  }

  lemma {:induction false} LightStaging(ds: seq<Prepared>, plan: Plan, tables: nat)
    requires Aligned(ds) && Light(TablesScript(ds, plan), tables) && Light(GatherScript(ds, plan), 0)
    ensures Light(StagingScript(ds, plan), tables + Staged(ds, plan))
  {
    var staged := Staged(ds, plan);
    LightThen(TablesScript(ds, plan), Use(Retained(staged)), tables, staged);
    LightThen(AllocateScript(ds, plan), GatherScript(ds, plan), tables + staged, 0);
    LightThen(Use(Require(true)), Then(AllocateScript(ds, plan), GatherScript(ds, plan)), 0, tables + staged);
  }

  lemma {:induction false} ModestReaching(x: Input)
    requires x == Modest()
    ensures Light(ReachingScript(x), 534)
  {
    var o, d := x.options, x.documents[0];
    var ds := Products(o, x.documents);
    assert Products(o, [d][..0]) == [] && ds == [Product(o, d)];
    ModestContent(x);
    ModestTables(ds, x.plan);
    ModestGather(x.plan.halts);
    LightStaging(ds, x.plan, 48);
    LightThen(ContentScript(x), StagingScript(ds, x.plan), 462, 72);
  }

  lemma {:induction false} LightReaches(x: Input, volume: nat)
    requires Light(ReachingScript(x), volume) && x.base == 0 && x.limits.memory == None
    requires volume <= x.limits.temporary < U64
    ensures ReachesConversion(x)
  {
    AskedWithinVolume(0, ReachingScript(x));
  }

  lemma ModestPossible()
    ensures Possible(Modest())
  {
    assert PossibleDocument(Modest().documents[0]);
  }

  /** So there is a preparation with possible sizes that ends with a ledger ahead of what is owned. */
  lemma ModestRunsAhead() returns (x: Input)
    ensures Possible(x) && LostInConversion(x) && Handed(x) > 0
  {
    var m := Modest();
    ModestReaching(m);
    LightReaches(m, 534);
    ModestPossible();
    LedgerRunsAhead(m, 1001);
    x := Overreaching(m, 1001);
  }
}
