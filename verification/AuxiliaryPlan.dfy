/** The auxiliary plan of closure evidence: the rows of all documents are gathered in staging
    tables, handed to a conversion, and exchanged in the ledger for the owner it returns. */
module AuxiliaryPlan {
  import opened Ordering
  import opened EvidenceLedger
  import opened EvidencePreparation

  /** One staging table: the size asked for, whether its allocation fails, the size it got. */
  datatype StageTable = StageTable(predicted: nat, fails: bool, actual: nat)

  /** `halts[i]` is the checkpoint before document i is taken, `forced` the one after the last; then
      come the conversion, the peak it reports and the size of the owner it returns. */
  datatype Plan = Plan(
    origins: StageTable,
    raw: StageTable,
    sources: StageTable,
    reports: StageTable,
    halts: seq<bool>,
    forced: bool,
    conversion: Work,
    peak: nat,
    owner: nat)

  predicate OriginsPresent(ds: seq<Prepared>) { ds != [] && ds[0].origins.Some? }

  predicate SourcesPresent(ds: seq<Prepared>) { ds != [] && ds[0].source.Some? }

  predicate ReportsPresent(ds: seq<Prepared>)
  {
    ds != [] && (ReportsPresent(ds[..|ds| - 1]) || ds[|ds| - 1].rdf.Some?)
  }

  /** Every document has the same capabilities, and both kinds of origins or none. */
  predicate AllHave(ds: seq<Prepared>, sources: bool, origins: bool)
  {
    ds == [] ||
    var d := ds[|ds| - 1];
    AllHave(ds[..|ds| - 1], sources, origins) && d.source.Some? == sources && d.origins.Some? == d.raw.Some? == origins
  }

  predicate Aligned(ds: seq<Prepared>) { AllHave(ds, SourcesPresent(ds), OriginsPresent(ds)) }

  // ----- Scripts

  function Grown(staged: nat, present: bool, t: StageTable): nat { if present then staged + t.actual else staged }

  /** The table is within limits before and after its allocation. */
  function StageScript(staged: nat, present: bool, t: StageTable): Script
  {
    if present
    then Then(Use(Temporary(staged + t.predicted)), Then(Use(Guard(t.fails)), Use(Temporary(staged + t.actual))))
    else Idle
  }

  /** The size of the staging tables for origins, for both kinds of origins, and with source maps. */
  function Staged1(ds: seq<Prepared>, plan: Plan): nat { Grown(0, OriginsPresent(ds), plan.origins) }

  function Staged2(ds: seq<Prepared>, plan: Plan): nat { Grown(Staged1(ds, plan), OriginsPresent(ds), plan.raw) }

  function Staged3(ds: seq<Prepared>, plan: Plan): nat { Grown(Staged2(ds, plan), SourcesPresent(ds), plan.sources) }

  function Staged(ds: seq<Prepared>, plan: Plan): nat { Grown(Staged3(ds, plan), ReportsPresent(ds), plan.reports) }

  function TablesScript(ds: seq<Prepared>, plan: Plan): Script
  {
    Then(StageScript(0, OriginsPresent(ds), plan.origins),
    Then(StageScript(Staged1(ds, plan), OriginsPresent(ds), plan.raw),
    Then(StageScript(Staged2(ds, plan), SourcesPresent(ds), plan.sources),
         StageScript(Staged3(ds, plan), ReportsPresent(ds), plan.reports))))
  }

  function AllocateScript(ds: seq<Prepared>, plan: Plan): Script
  {
    Then(TablesScript(ds, plan), Use(Retained(Staged(ds, plan))))
  }

  predicate HaltsAt(halts: seq<bool>, i: nat) { i < |halts| && halts[i] }

  function Guards(halts: seq<bool>, n: nat): Script
    decreases n
  {
    if n == 0 then Idle else Then(Guards(halts, n - 1), Use(Guard(HaltsAt(halts, n - 1))))
  }

  function GatherScript(ds: seq<Prepared>, plan: Plan): Script
  {
    Then(Guards(plan.halts, |ds|), Use(Guard(plan.forced)))
  }

  /** Up to the conversion. */
  function StagingScript(ds: seq<Prepared>, plan: Plan): Script
  {
    Then(Use(Require(Aligned(ds))), Then(AllocateScript(ds, plan), GatherScript(ds, plan)))
  }

  function ConversionScript(plan: Plan): Script { Then(WorkScript(plan.conversion), Use(Temporary(plan.peak))) }

  function SettleScript(ds: seq<Prepared>, plan: Plan): Script
  {
    Then(Use(Released(AllAuxiliary(ds) + Staged(ds, plan))), Use(Retained(plan.owner)))
  }

  function PlanScript(ds: seq<Prepared>, plan: Plan): Script
  {
    Then(StagingScript(ds, plan), Then(ConversionScript(plan), SettleScript(ds, plan)))
  }

  // ----- Staging

  method Stage(budget: EvidenceBudget, staged: nat, present: bool, t: StageTable) returns (outcome: Outcome, total: nat)
    modifies budget`asked
    ensures budget.State(outcome)
         == Run(budget.limits, budget.base, old(budget.State(Done)), StageScript(staged, present, t))
    ensures Ordinary(outcome)
    ensures outcome == Done ==> total == Grown(staged, present, t)
  {
    outcome, total := Done, staged;
    if present {
      RunThen(budget.limits, budget.base, budget.State(Done), Use(Temporary(staged + t.predicted)),
              Then(Use(Guard(t.fails)), Use(Temporary(staged + t.actual))));
      outcome := budget.EnsureTemporary(staged + t.predicted);
      if outcome != Done { return; }
      if t.fails {
        return Halted, staged;
      }
      total := staged + t.actual;
      outcome := budget.EnsureTemporary(total);
    }
  }

  method StageAll(budget: EvidenceBudget, ds: seq<Prepared>, plan: Plan) returns (outcome: Outcome, staged: nat)
    modifies budget`asked
    ensures budget.State(outcome) == Run(budget.limits, budget.base, old(budget.State(Done)), TablesScript(ds, plan))
    ensures Ordinary(outcome)
    ensures outcome == Done ==> staged == Staged(ds, plan)
  {
    var origins, sources, reports := OriginsPresent(ds), SourcesPresent(ds), ReportsPresent(ds);
    ghost var last := StageScript(Staged3(ds, plan), reports, plan.reports);
    ghost var third := StageScript(Staged2(ds, plan), sources, plan.sources);
    ghost var second := StageScript(Staged1(ds, plan), origins, plan.raw);
    RunThen(budget.limits, budget.base, budget.State(Done), StageScript(0, origins, plan.origins),
            Then(second, Then(third, last)));
    outcome, staged := Stage(budget, 0, origins, plan.origins);
    if outcome != Done { return; }
    RunThen(budget.limits, budget.base, budget.State(Done), second, Then(third, last));
    outcome, staged := Stage(budget, staged, origins, plan.raw);
    if outcome != Done { return; }
    RunThen(budget.limits, budget.base, budget.State(Done), third, last);
    outcome, staged := Stage(budget, staged, sources, plan.sources);
    if outcome != Done { return; }
    outcome, staged := Stage(budget, staged, reports, plan.reports);
  }

  /** Allocates the staging tables and enters them. */
  method Allocate(budget: EvidenceBudget, ds: seq<Prepared>, plan: Plan) returns (outcome: Outcome, staged: nat)
    modifies budget
    ensures budget.State(outcome) == Run(budget.limits, budget.base, old(budget.State(Done)), AllocateScript(ds, plan))
    ensures Ordinary(outcome)
    ensures staged == if outcome == Done then Staged(ds, plan) else 0
    ensures budget.retained == old(budget.retained) + staged
  {
    outcome, staged := StageAll(budget, ds, plan);
    if outcome == Done {
      outcome := budget.Retain(staged);
    }
    if outcome != Done {
      staged := 0;
    }
  }

  // ----- Gathering

  function Emptied(p: Prepared): Prepared
  {
    Prepared(if p.source.Some? then Some(SourceMap(TAKEN, TAKEN)) else None,
             if p.origins.Some? then Some(TAKEN) else None,
             if p.raw.Some? then Some(TAKEN) else None,
             if p.rdf.Some? then Some(RdfReport(0, TAKEN, TAKEN, TAKEN)) else None,
             p.key)
  }

  method TakeOrigins(g: Staging, p: Prepared) returns (h: Staging, q: Prepared)
    requires p.origins.Some? && p.raw.Some?
    ensures StagingBytes(h) == StagingBytes(g) + TableOr(p.origins) + TableOr(p.raw) && h.tables == g.tables
    ensures q == p.(origins := Emptied(p).origins, raw := Emptied(p).raw)
  {
    h := g.(origins := g.origins + [p.origins.value], raw := g.raw + [p.raw.value]);
    q := p.(origins := Some(TAKEN), raw := Some(TAKEN));
  }

  method TakeSource(g: Staging, p: Prepared) returns (h: Staging, q: Prepared)
    requires p.source.Some?
    ensures StagingBytes(h) == StagingBytes(g) + SourceOr(p.source) && h.tables == g.tables
    ensures q == p.(source := Emptied(p).source)
  {
    h := g.(sources := g.sources + [p.source.value]);
    q := p.(source := Some(SourceMap(TAKEN, TAKEN)));
  }

  method TakeReport(g: Staging, p: Prepared) returns (h: Staging, q: Prepared)
    ensures StagingBytes(h) == StagingBytes(g) + RdfOr(p.rdf) && h.tables == g.tables
    ensures q == p.(rdf := Emptied(p).rdf)
  {
    h, q := g.(reports := g.reports + [p.rdf]), p;
    if p.rdf.Some? {
      q := q.(rdf := Some(RdfReport(0, TAKEN, TAKEN, TAKEN)));
    }
  }

  lemma EmptiedBytes(p: Prepared)
    ensures AuxiliaryBytes(Emptied(p)) == 0
  {
  }

  /** Moving the rows of a document into the staging tables neither creates nor loses a byte. */
  method Take(g: Staging, p: Prepared, origins: bool, sources: bool, reports: bool) returns (h: Staging, q: Prepared)
    requires p.origins.Some? == p.raw.Some? == origins && p.source.Some? == sources && (p.rdf.Some? ==> reports)
    ensures q == Emptied(p) && AuxiliaryBytes(q) == 0 && h.tables == g.tables
    ensures StagingBytes(h) == StagingBytes(g) + AuxiliaryBytes(p)
  {
    EmptiedBytes(p);
    h, q := g, p;
    if origins {
      h, q := TakeOrigins(h, q);
    }
    if sources {
      h, q := TakeSource(h, q);
    }
    if reports {
      h, q := TakeReport(h, q);
    }
  }

  lemma {:induction false} SumsJoin(a: seq<Prepared>, b: seq<Prepared>)
    ensures AllAuxiliary(a + b) == AllAuxiliary(a) + AllAuxiliary(b)
    ensures AllKeys(a + b) == AllKeys(a) + AllKeys(b)
    decreases |b|
  {
    if b == [] {
      assert a + b == a;
    } else {
      assert (a + b)[..|a + b| - 1] == a + b[..|b| - 1];
      SumsJoin(a, b[..|b| - 1]);
    }
  }

  lemma SumsRest(ds: seq<Prepared>, left: seq<Prepared>, i: nat)
    requires i <= |ds|
    ensures AllAuxiliary(ds) == AllAuxiliary(ds[..i]) + AllAuxiliary(ds[i..])
    ensures AllKeys(ds) == AllKeys(ds[..i]) + AllKeys(ds[i..])
    ensures AllAuxiliary(left + ds[i..]) == AllAuxiliary(left) + AllAuxiliary(ds[i..])
    ensures AllKeys(left + ds[i..]) == AllKeys(left) + AllKeys(ds[i..])
  {
    SumsJoin(left, ds[i..]);
    SumsJoin(ds[..i], ds[i..]);
    SplitRejoin(ds, i);
  }

  lemma SumsNext(ds: seq<Prepared>, left: seq<Prepared>, q: Prepared, i: nat)
    requires i < |ds|
    ensures AllAuxiliary(ds[..i + 1]) == AllAuxiliary(ds[..i]) + AuxiliaryBytes(ds[i])
    ensures AllKeys(ds[..i + 1]) == AllKeys(ds[..i]) + ds[i].key
    ensures AllAuxiliary(left + [q]) == AllAuxiliary(left) + AuxiliaryBytes(q)
    ensures AllKeys(left + [q]) == AllKeys(left) + q.key
  {
    AppendFront(left, q);
    TakeNext(ds, i);
  }

  lemma {:induction false} AlignedAt(ds: seq<Prepared>, sources: bool, origins: bool, i: nat)
    requires AllHave(ds, sources, origins) && i < |ds|
    ensures ds[i].origins.Some? == ds[i].raw.Some? == origins
    ensures ds[i].source.Some? == sources && (ds[i].rdf.Some? ==> ReportsPresent(ds))
    decreases |ds|
  {
    if i < |ds| - 1 {
      AlignedAt(ds[..|ds| - 1], sources, origins, i);
    }
  }

  predicate NoneHalts(halts: seq<bool>, n: nat)
    decreases n
  {
    n == 0 || (NoneHalts(halts, n - 1) && !HaltsAt(halts, n - 1))
  }

  lemma {:induction false} HaltsOnce(halts: seq<bool>, i: nat, n: nat)
    requires i < n && HaltsAt(halts, i)
    ensures !NoneHalts(halts, n)
    decreases n
  {
    if i < n - 1 {
      HaltsOnce(halts, i, n - 1);
    }
  }

  lemma {:induction false} GuardsRun(limits: Limits, base: nat, s: Ledger, halts: seq<bool>, n: nat)
    requires s.outcome == Done
    ensures Run(limits, base, s, Guards(halts, n)) == if NoneHalts(halts, n) then s else s.(outcome := Halted)
    decreases n
  {
    if n > 0 {
      GuardsRun(limits, base, s, halts, n - 1);
      RunThen(limits, base, s, Guards(halts, n - 1), Use(Guard(HaltsAt(halts, n - 1))));
    }
  }

  /** Moves the rows of every document, unless a checkpoint stops it on the way.  Whenever it
      returns, documents and staging together hold as much as before. */
  method GatherRows(ds: seq<Prepared>, g: Staging, halts: seq<bool>)
    returns (halted: bool, left: seq<Prepared>, gathered: Staging)
    requires Aligned(ds)
    ensures halted <==> !NoneHalts(halts, |ds|)
    ensures AllAuxiliary(left) + StagingBytes(gathered) == AllAuxiliary(ds) + StagingBytes(g)
    ensures AllKeys(left) == AllKeys(ds) && gathered.tables == g.tables
    ensures !halted ==> AllAuxiliary(left) == 0
  {
    var origins, sources, reports := OriginsPresent(ds), SourcesPresent(ds), ReportsPresent(ds);
    left, gathered := [], g;
    for i := 0 to |ds|
      invariant AllAuxiliary(left) == 0 && AllKeys(left) == AllKeys(ds[..i])
      invariant StagingBytes(gathered) == StagingBytes(g) + AllAuxiliary(ds[..i]) && gathered.tables == g.tables
      invariant NoneHalts(halts, i)
    {
      if HaltsAt(halts, i) {
        HaltsOnce(halts, i, |ds|);
        SumsRest(ds, left, i);
        return true, left + ds[i..], gathered;
      }
      AlignedAt(ds, sources, origins, i);
      var q;
      gathered, q := Take(gathered, ds[i], origins, sources, reports);
      SumsNext(ds, left, q, i);
      left := left + [q];
    }
    TakeAll(ds);
    halted := false;
  }

  method Gather(budget: EvidenceBudget, store: Store, plan: Plan) returns (outcome: Outcome, left: Store)
    requires Aligned(store.documents)
    ensures budget.State(outcome)
         == Run(budget.limits, budget.base, budget.State(Done), GatherScript(store.documents, plan))
    ensures Owned(left) == Owned(store) && AllKeys(left.documents) == AllKeys(store.documents)
    ensures left == store.(documents := left.documents, staging := left.staging)
    ensures Ordinary(outcome) && left.staging.tables == store.staging.tables
    ensures outcome == Done ==> AllAuxiliary(left.documents) == 0
  {
    ghost var s, n := budget.State(Done), |store.documents|;
    RunThen(budget.limits, budget.base, s, Guards(plan.halts, n), Use(Guard(plan.forced)));
    GuardsRun(budget.limits, budget.base, s, plan.halts, n);
    var halted, documents, staging := GatherRows(store.documents, store.staging, plan.halts);
    left := store.(documents := documents, staging := staging);
    outcome := if halted || plan.forced then Halted else Done;
  }

  // ----- The plan

  /** The conversion stops, or the peak it reports is refused.  Its input is then gone, while the
      ledger still counts it. */
  ghost predicate Abandoned(limits: Limits, base: nat, s: Ledger, ds: seq<Prepared>, plan: Plan)
  {
    var staged := Run(limits, base, s, StagingScript(ds, plan));
    staged.outcome == Done && Run(limits, base, staged, ConversionScript(plan)).outcome != Done
  }

  /** Up to the conversion the ledger retains exactly what is owned, whether it stops or not. */
  method StageDocuments(budget: EvidenceBudget, store: Store, plan: Plan) returns (outcome: Outcome, left: Store)
    requires store.staging == UNSTAGED
    modifies budget
    ensures budget.State(outcome)
         == Run(budget.limits, budget.base, old(budget.State(Done)), StagingScript(store.documents, plan))
    ensures budget.retained + Owned(store) == old(budget.retained) + Owned(left)
    ensures left == store.(documents := left.documents, staging := left.staging)
    ensures AllKeys(left.documents) == AllKeys(store.documents)
    ensures outcome != Underflow && (outcome == Misaligned <==> !Aligned(store.documents))
    ensures outcome == Done ==> AllAuxiliary(left.documents) == 0
    ensures outcome == Done ==> left.staging.tables == Staged(store.documents, plan)
    ensures outcome == Done ==> StagingBytes(left.staging) == AllAuxiliary(store.documents) + left.staging.tables
  {
    left := store;
    var ds := store.documents;
    RunThen(budget.limits, budget.base, budget.State(Done), Use(Require(Aligned(ds))),
            Then(AllocateScript(ds, plan), GatherScript(ds, plan)));
    if !Aligned(ds) {
      return Misaligned, left;
    }
    RunThen(budget.limits, budget.base, budget.State(Done), AllocateScript(ds, plan), GatherScript(ds, plan));
    var staged;
    outcome, staged := Allocate(budget, ds, plan);
    if outcome != Done { return; }
    left := left.(staging := Staging(staged, [], [], [], []));
    outcome, left := Gather(budget, left, plan);
  }

  /** The conversion with the check of the peak it reports. */
  method Convert(budget: EvidenceBudget, plan: Plan) returns (outcome: Outcome)
    modifies budget`asked
    ensures budget.State(outcome) == Run(budget.limits, budget.base, old(budget.State(Done)), ConversionScript(plan))
    ensures Ordinary(outcome)
  {
    outcome := DoWork(budget, plan.conversion);
    if outcome == Done {
      outcome := budget.EnsureTemporary(plan.peak);
    }
  }

  /** Exchanges the rows and their staging tables for the owner. */
  method Settle(budget: EvidenceBudget, ds: seq<Prepared>, plan: Plan, input: nat) returns (outcome: Outcome)
    requires input == AllAuxiliary(ds) + Staged(ds, plan)
    modifies budget
    ensures budget.State(outcome) == Run(budget.limits, budget.base, old(budget.State(Done)), SettleScript(ds, plan))
    ensures outcome != Misaligned && outcome != Halted
    ensures outcome == Underflow <==> old(budget.retained) < input
    ensures outcome != Underflow ==>
      budget.retained == old(budget.retained) - input + if outcome == Done then plan.owner else 0
  {
    outcome := budget.Release(input);
    if outcome == Done {
      outcome := budget.Retain(plan.owner);
    }
  }

  /** Given a ledger that retains what is owned, no release underflows, and at every return it again
      retains what is owned, except that an abandoned conversion leaves its input in the ledger. */
  method PrepareAuxiliaryPlan(budget: EvidenceBudget, store: Store, plan: Plan) returns (outcome: Outcome, left: Store)
    requires store.staging == UNSTAGED && store.owner == 0
    modifies budget
    ensures budget.State(outcome)
         == Run(budget.limits, budget.base, old(budget.State(Done)), PlanScript(store.documents, plan))
    ensures outcome == Misaligned <==> !Aligned(store.documents)
    ensures old(budget.retained) == Owned(store) ==>
      && outcome != Underflow
      && budget.retained == Owned(left) +
           if Abandoned(budget.limits, budget.base, old(budget.State(Done)), store.documents, plan)
           then AllAuxiliary(store.documents) + Staged(store.documents, plan) else 0
    ensures left == store.(documents := left.documents, staging := left.staging, owner := left.owner)
    ensures AllKeys(left.documents) == AllKeys(store.documents)
    ensures outcome == Done ==>
      AllAuxiliary(left.documents) == 0 && left.staging == UNSTAGED && left.owner == plan.owner
    ensures outcome == Done ==> !Abandoned(budget.limits, budget.base, old(budget.State(Done)), store.documents, plan)
  {
    ghost var s, limits, base := budget.State(Done), budget.limits, budget.base;
    var ds := store.documents;
    var rows := AllAuxiliary(ds);
    RunThen(limits, base, s, StagingScript(ds, plan), Then(ConversionScript(plan), SettleScript(ds, plan)));
    outcome, left := StageDocuments(budget, store, plan);
    if outcome != Done { return; }
    var staged := left.staging.tables;
    left := left.(staging := UNSTAGED);
    RunThen(limits, base, budget.State(Done), ConversionScript(plan), SettleScript(ds, plan));
    outcome := Convert(budget, plan);
    if outcome != Done { return; }
    outcome := Settle(budget, ds, plan, rows + staged);
    if outcome == Done {
      left := left.(owner := plan.owner);
    }
  }
}
