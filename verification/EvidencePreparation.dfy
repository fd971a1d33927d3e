/** Preparing closure evidence: what is built, in which order it is entered in the ledger, and
    what is owned whenever the preparation returns. */
module EvidencePreparation {
  import opened Ordering
  import opened EvidenceLedger

  // ----- Structures, by their allocated capacities

  datatype RowTable = RowTable(capacities: seq<nat>, outer: nat)

  datatype SourceMap = SourceMap(entries: RowTable, prefixes: RowTable)

  datatype RdfReport = RdfReport(header: nat, unconsumed: RowTable, rules: RowTable, diagnostics: RowTable)

  datatype Prepared = Prepared(
    source: Option<SourceMap>,
    origins: Option<RowTable>,
    raw: Option<RowTable>,
    rdf: Option<RdfReport>,
    key: nat)

  const NOTHING: Prepared := Prepared(None, None, None, None, 0)

  /** What is left of a table that was taken. */
  const TAKEN: RowTable := RowTable([], 0)

  /** A table owns its rows and 24 bytes for each of them that it has room for. */
  function TableBytes(t: RowTable): nat
    decreases |t.capacities|
  {
    var n := |t.capacities|;
    if n == 0 then 24 * t.outer
    else TableBytes(RowTable(t.capacities[..n - 1], t.outer)) + t.capacities[n - 1]
  }

  function SourceBytes(s: SourceMap): nat { TableBytes(s.entries) + TableBytes(s.prefixes) }

  function RdfBytes(r: RdfReport): nat
  {
    r.header + TableBytes(r.unconsumed) + TableBytes(r.rules) + TableBytes(r.diagnostics)
  }

  function TableOr(t: Option<RowTable>): nat { if t.None? then 0 else TableBytes(t.value) }

  function SourceOr(s: Option<SourceMap>): nat { if s.None? then 0 else SourceBytes(s.value) }

  function RdfOr(r: Option<RdfReport>): nat { if r.None? then 0 else RdfBytes(r.value) }

  /** The rows of a document that the auxiliary plan takes over. */
  function AuxiliaryBytes(p: Prepared): nat
  {
    SourceOr(p.source) + TableOr(p.origins) + TableOr(p.raw) + RdfOr(p.rdf)
  }

  function AllAuxiliary(ps: seq<Prepared>): nat
  {
    if ps == [] then 0 else AllAuxiliary(ps[..|ps| - 1]) + AuxiliaryBytes(ps[|ps| - 1])
  }

  function AllKeys(ps: seq<Prepared>): nat
  {
    if ps == [] then 0 else AllKeys(ps[..|ps| - 1]) + ps[|ps| - 1].key
  }

  /** The tables the rows of all documents are gathered in; `tables` is their own size. */
  datatype Staging = Staging(
    tables: nat,
    origins: seq<RowTable>,
    raw: seq<RowTable>,
    sources: seq<SourceMap>,
    reports: seq<Option<RdfReport>>)

  function RowsOf(ts: seq<RowTable>): nat
  {
    if ts == [] then 0 else RowsOf(ts[..|ts| - 1]) + TableBytes(ts[|ts| - 1])
  }

  function SourcesOf(ss: seq<SourceMap>): nat
  {
    if ss == [] then 0 else SourcesOf(ss[..|ss| - 1]) + SourceBytes(ss[|ss| - 1])
  }

  function ReportsOf(rs: seq<Option<RdfReport>>): nat
  {
    if rs == [] then 0 else ReportsOf(rs[..|rs| - 1]) + RdfOr(rs[|rs| - 1])
  }

  function StagingBytes(g: Staging): nat
  {
    g.tables + RowsOf(g.origins) + RowsOf(g.raw) + SourcesOf(g.sources) + ReportsOf(g.reports)
  }

  const UNSTAGED: Staging := Staging(0, [], [], [], [])

  /** Everything the preparation owns: the document table, its documents, the parts of the document
      at hand, the merged origins, the staging tables and the auxiliary owner.  Storage is owned from
      its entry until it is dropped or handed to the conversion. */
  datatype Store = Store(
    table: nat,
    documents: seq<Prepared>,
    parts: Prepared,
    closure: Option<RowTable>,
    staging: Staging,
    owner: nat)

  function Owned(s: Store): nat
  {
    s.table + AllAuxiliary(s.documents) + AllKeys(s.documents) + AuxiliaryBytes(s.parts) + s.parts.key
      + TableOr(s.closure) + StagingBytes(s.staging) + s.owner
  }

  // ----- Work that asks for temporaries

  /** Building one structure: the workspaces it asks for, and whether it then stops by itself. */
  datatype Work = Work(requests: seq<nat>, halts: bool)

  function Temporaries(requests: seq<nat>): Script
  {
    if requests == [] then Idle
    else Then(Temporaries(requests[..|requests| - 1]), Use(Temporary(requests[|requests| - 1])))
  }

  function WorkScript(w: Work): Script { Then(Temporaries(w.requests), Use(Guard(w.halts))) }

  function KeepScript(w: Work, present: bool, bytes: nat): Script
  {
    Then(WorkScript(w), if present then Use(Retained(bytes)) else Idle)
  }

  method AskAll(budget: EvidenceBudget, requests: seq<nat>) returns (outcome: Outcome)
    modifies budget`asked
    ensures budget.State(outcome) == Run(budget.limits, budget.base, old(budget.State(Done)), Temporaries(requests))
    ensures Ordinary(outcome)
  {
    ghost var s := budget.State(Done);
    for i := 0 to |requests|
      invariant budget.State(Done) == Run(budget.limits, budget.base, s, Temporaries(requests[..i]))
    {
      TakeNext(requests, i);
      outcome := budget.EnsureTemporary(requests[i]);
      if outcome != Done {
        TemporariesStop(budget.limits, budget.base, s, requests, i + 1);
        return;
      }
    }
    TakeAll(requests);
    return Done;
  }

  lemma {:induction false} TemporariesStop(limits: Limits, base: nat, s: Ledger, requests: seq<nat>, n: nat)
    requires n <= |requests| && Run(limits, base, s, Temporaries(requests[..n])).outcome != Done
    ensures Run(limits, base, s, Temporaries(requests)) == Run(limits, base, s, Temporaries(requests[..n]))
    decreases |requests|
  {
    if n == |requests| {
      TakeAll(requests);
    } else {
      var front := requests[..|requests| - 1];
      assert front[..n] == requests[..n];
      TemporariesStop(limits, base, s, front, n);
    }
  }

  method DoWork(budget: EvidenceBudget, w: Work) returns (outcome: Outcome)
    modifies budget`asked
    ensures budget.State(outcome) == Run(budget.limits, budget.base, old(budget.State(Done)), WorkScript(w))
    ensures Ordinary(outcome)
  {
    outcome := AskAll(budget, w.requests);
    if outcome == Done && w.halts {
      outcome := Halted;
    }
  }

  /** Builds a structure and, if there is one, enters it. */
  method Keep(budget: EvidenceBudget, w: Work, present: bool, bytes: nat) returns (outcome: Outcome)
    modifies budget
    ensures budget.State(outcome)
         == Run(budget.limits, budget.base, old(budget.State(Done)), KeepScript(w, present, bytes))
    ensures Ordinary(outcome)
    ensures budget.retained == old(budget.retained) + if outcome == Done && present then bytes else 0
  {
    outcome := DoWork(budget, w);
    if outcome == Done && present {
      outcome := budget.Retain(bytes);
    }
  }

  // ----- One document

  datatype Options = Options(preserve: bool, collect: bool)

  /** What a document contributes, with the work behind each part.  `cancelled`, `unreadable` and
      `unfit` are the guards before its first request, before its source map and before its key. */
  datatype Source = Source(
    cancelled: bool,
    unreadable: bool,
    sourceWork: Work,
    source: SourceMap,
    originWork: Work,
    origins: RowTable,
    rawWork: Work,
    raw: RowTable,
    rdfWork: Work,
    rdf: Option<RdfReport>,
    unfit: bool,
    key: nat)

  function Product(o: Options, d: Source): Prepared
  {
    Prepared(if o.preserve then Some(d.source) else None,
             if o.collect then Some(d.origins) else None,
             if o.collect then Some(d.raw) else None,
             d.rdf,
             d.key)
  }

  function Products(o: Options, ds: seq<Source>): seq<Prepared>
  {
    if ds == [] then [] else Products(o, ds[..|ds| - 1]) + [Product(o, ds[|ds| - 1])]
  }

  function LeadScript(row: nat, d: Source): Script
  {
    Then(Use(Guard(d.cancelled)), Then(Use(Temporary(row)), Use(Guard(d.unreadable))))
  }

  function SourceScript(o: Options, d: Source): Script
  {
    KeepScript(d.sourceWork, o.preserve, SourceBytes(d.source))
  }

  function OriginScript(o: Options, d: Source): Script
  {
    if o.collect
    then Then(KeepScript(d.originWork, true, TableBytes(d.origins)), KeepScript(d.rawWork, true, TableBytes(d.raw)))
    else Idle
  }

  function RdfScript(d: Source): Script { KeepScript(d.rdfWork, d.rdf.Some?, RdfOr(d.rdf)) }

  function KeyScript(d: Source): Script
  {
    Then(Use(Guard(d.unfit)), Then(Use(Temporary(d.key)), Use(Retained(d.key))))
  }

  function RowsScript(o: Options, d: Source): Script
  {
    Then(SourceScript(o, d), Then(OriginScript(o, d), RdfScript(d)))
  }

  /** A document in source order: every part's temporaries are asked for on top of the parts that
      are already entered. */
  function DocumentScript(o: Options, row: nat, d: Source): Script
  {
    Then(LeadScript(row, d), Then(RowsScript(o, d), KeyScript(d)))
  }

  method Lead(budget: EvidenceBudget, row: nat, d: Source) returns (outcome: Outcome)
    modifies budget`asked
    ensures budget.State(outcome) == Run(budget.limits, budget.base, old(budget.State(Done)), LeadScript(row, d))
    ensures Ordinary(outcome)
  {
    RunThen(budget.limits, budget.base, budget.State(Done), Use(Guard(d.cancelled)),
            Then(Use(Temporary(row)), Use(Guard(d.unreadable))));
    if d.cancelled {
      return Halted;
    }
    outcome := budget.EnsureTemporary(row);
    if outcome == Done && d.unreadable {
      return Halted;
    }
  }

  method KeepOrigins(budget: EvidenceBudget, o: Options, d: Source)
    returns (outcome: Outcome, origins: Option<RowTable>, raw: Option<RowTable>)
    modifies budget
    ensures budget.State(outcome) == Run(budget.limits, budget.base, old(budget.State(Done)), OriginScript(o, d))
    ensures budget.retained == old(budget.retained) + TableOr(origins) + TableOr(raw)
    ensures Ordinary(outcome)
    ensures outcome == Done ==> origins == Product(o, d).origins && raw == Product(o, d).raw
  {
    outcome, origins, raw := Done, None, None;
    if o.collect {
      outcome := Keep(budget, d.originWork, true, TableBytes(d.origins));
      if outcome == Done {
        origins := Some(d.origins);
        outcome := Keep(budget, d.rawWork, true, TableBytes(d.raw));
        if outcome == Done {
          raw := Some(d.raw);
        }
      }
    }
  }

  method KeepKey(budget: EvidenceBudget, d: Source) returns (outcome: Outcome)
    modifies budget
    ensures budget.State(outcome) == Run(budget.limits, budget.base, old(budget.State(Done)), KeyScript(d))
    ensures Ordinary(outcome)
    ensures budget.retained == old(budget.retained) + if outcome == Done then d.key else 0
  {
    RunThen(budget.limits, budget.base, budget.State(Done), Use(Guard(d.unfit)),
            Then(Use(Temporary(d.key)), Use(Retained(d.key))));
    if d.unfit {
      return Halted;
    }
    outcome := budget.EnsureTemporary(d.key);
    if outcome == Done {
      outcome := budget.Retain(d.key);
    }
  }

  method KeepRows(budget: EvidenceBudget, o: Options, d: Source) returns (outcome: Outcome, parts: Prepared)
    modifies budget
    ensures budget.State(outcome) == Run(budget.limits, budget.base, old(budget.State(Done)), RowsScript(o, d))
    ensures budget.retained == old(budget.retained) + AuxiliaryBytes(parts) && parts.key == 0
    ensures Ordinary(outcome)
    ensures outcome == Done ==> parts == Product(o, d).(key := 0)
  {
    parts := NOTHING;
    RunThen(budget.limits, budget.base, budget.State(Done), SourceScript(o, d), Then(OriginScript(o, d), RdfScript(d)));
    outcome := Keep(budget, d.sourceWork, o.preserve, SourceBytes(d.source));
    if outcome != Done { return; }
    parts := parts.(source := if o.preserve then Some(d.source) else None);
    RunThen(budget.limits, budget.base, budget.State(Done), OriginScript(o, d), RdfScript(d));
    var origins, raw;
    outcome, origins, raw := KeepOrigins(budget, o, d);
    parts := parts.(origins := origins, raw := raw);
    if outcome != Done { return; }
    outcome := Keep(budget, d.rdfWork, d.rdf.Some?, RdfOr(d.rdf));
    if outcome == Done {
      parts := parts.(rdf := d.rdf);
    }
  }

  /** Whenever it returns, the ledger has grown by exactly the parts that are kept. */
  method PrepareDocument(budget: EvidenceBudget, o: Options, row: nat, d: Source)
    returns (outcome: Outcome, parts: Prepared)
    modifies budget
    ensures budget.State(outcome) == Run(budget.limits, budget.base, old(budget.State(Done)), DocumentScript(o, row, d))
    ensures budget.retained == old(budget.retained) + AuxiliaryBytes(parts) + parts.key
    ensures Ordinary(outcome)
    ensures outcome == Done ==> parts == Product(o, d)
  {
    parts := NOTHING;
    RunThen(budget.limits, budget.base, budget.State(Done), LeadScript(row, d), Then(RowsScript(o, d), KeyScript(d)));
    outcome := Lead(budget, row, d);
    if outcome != Done { return; }
    RunThen(budget.limits, budget.base, budget.State(Done), RowsScript(o, d), KeyScript(d));
    outcome, parts := KeepRows(budget, o, d);
    if outcome != Done { return; }
    outcome := KeepKey(budget, d);
    if outcome == Done {
      parts := parts.(key := d.key);
    }
  }
}
