/** Runs of the arena builder: any list of interning commands on its four tables.  Every table
    answers like a plain map from what was asked for to identifiers. */
module ArenaRuns {
  import opened Ordering
  import opened InternTable
  import opened ArenaBuilder

  datatype Command =
    | Row(data: Bytes, allocates: bool)
    | Sequence(kind: SequenceKind, elements: seq<nat>, copies: bool, allocates: bool)
    | Document(scope: Scope, allocates: bool)
    | Identity(document: nat, localKey: Bytes, allocates: bool)

  predicate SameTable(c: Command, d: Command)
  {
    c.Row? == d.Row? && c.Sequence? == d.Sequence? && c.Document? == d.Document?
  }

  /** Two commands to one table ask for the same thing: the same bytes, the same ordered list, a
      canonical set with the same members, the same scope, or the same name in the same document. */
  ghost predicate SameRequest(c: Command, d: Command)
    requires SameTable(c, d)
  {
    match c
    case Row(data, _) => data == d.data
    case Sequence(kind, elements, _, _) =>
      && kind == d.kind
      && if kind == Ordered then elements == d.elements else forall e :: e in elements <==> e in d.elements
    case Document(scope, _) => scope == d.scope
    case Identity(document, localKey, _) => document == d.document && localKey == d.localKey
  }

  // ----- What is recorded of a run

  /** One table: its drafts before, between and after the commands, and the calls made to it. */
  datatype Log<K, P> = Log(states: seq<seq<Draft<K, P>>>, calls: seq<Call<K>>) {
    ghost predicate Follows(now: seq<Draft<K, P>>, n: nat)
    {
      IsRun(states, calls) && |calls| == n && states[n] == now
    }
  }

  function Record<K, P>(log: Log<K, P>, call: Call<K>, now: seq<Draft<K, P>>): Log<K, P>
  {
    Log(log.states + [now], log.calls + [call])
  }

  lemma RecordFollows<K, P>(log: Log<K, P>, was: seq<Draft<K, P>>, n: nat, call: Call<K>, now: seq<Draft<K, P>>)
    requires log.Follows(was, n) && Dense(now) && Step(was, now, call)
    ensures Record(log, call, now).Follows(now, n + 1)
  {
    var next := Record(log, call, now);
    forall i | 0 <= i < |next.calls|
      ensures Step(next.states[i], next.states[i + 1], next.calls[i])
    {
      if i < n {
        assert Step(log.states[i], log.states[i + 1], log.calls[i]);
      }
    }
  }

  datatype History = History(
    rows: Log<Bytes, nat>,
    sequences: Log<SequenceKey, ()>,
    documents: Log<Scope, ()>,
    anonymous: Log<AnonymousKey, nat>)

  /** Every table has a run of n calls. */
  ghost predicate Runs(h: History, n: nat)
  {
    && IsRun(h.rows.states, h.rows.calls) && |h.rows.calls| == n
    && IsRun(h.sequences.states, h.sequences.calls) && |h.sequences.calls| == n
    && IsRun(h.documents.states, h.documents.calls) && |h.documents.calls| == n
    && IsRun(h.anonymous.states, h.anonymous.calls) && |h.anonymous.calls| == n
  }

  /** The calls one command makes to the four tables. */
  datatype Calls = Calls(rows: Call<Bytes>, sequences: Call<SequenceKey>, documents: Call<Scope>,
                         anonymous: Call<AnonymousKey>)

  const QUIET: Calls := Calls(Elsewhere, Elsewhere, Elsewhere, Elsewhere)

  /** The command asks the table it is for and no other, and that table gives its answer. */
  ghost predicate Answers(rows: Rows, documents: Documents, calls: Calls, c: Command, r: Interned)
  {
    match c
    case Row(data, _) => calls == QUIET.(rows := Call(data, r))
    case Sequence(kind, elements, _, _) =>
      && calls.sequences.Call? && calls == QUIET.(sequences := Call(calls.sequences.key, r))
      && calls.sequences.key.kind == kind
      && (r.Id? ==> KnownRows(rows, elements) && IsForm(rows, kind, elements, calls.sequences.key.elements))
    case Document(scope, _) => calls == QUIET.(documents := Call(scope, r))
    case Identity(document, localKey, _) =>
      if document < |documents|
      then calls == QUIET.(anonymous := Call(AnonymousKey(documents[document].key, localKey), r))
      else calls == QUIET && r == Rejected
  }

  ghost function CallsAt(h: History, n: nat, i: nat): Calls
    requires Runs(h, n) && i < n
  {
    Calls(h.rows.calls[i], h.sequences.calls[i], h.documents.calls[i], h.anonymous.calls[i])
  }

  /** Command number i got that answer from the calls recorded there. */
  ghost predicate Answered(h: History, n: nat, i: nat, c: Command, r: Interned)
    requires Runs(h, n) && i < n
  {
    Answers(h.rows.states[i], h.documents.states[i], CallsAt(h, n, i), c, r)
  }

  ghost predicate AllAnswered(h: History, n: nat, commands: seq<Command>, results: seq<Interned>)
    requires Runs(h, n)
  {
    && |results| == n <= |commands|
    && forall i | 0 <= i < n :: Answered(h, n, i, commands[i], results[i])
  }

  /** What one more command leaves as it was. */
  ghost predicate Extends(h: History, g: History, n: nat)
    requires Runs(h, n) && Runs(g, n + 1)
  {
    && h.rows.calls == g.rows.calls[..n] && h.rows.states == g.rows.states[..n + 1]
    && h.sequences.calls == g.sequences.calls[..n]
    && h.documents.calls == g.documents.calls[..n] && h.documents.states == g.documents.states[..n + 1]
    && h.anonymous.calls == g.anonymous.calls[..n]
  }

  lemma AnsweredExtends(h: History, g: History, n: nat, commands: seq<Command>, results: seq<Interned>, r: Interned)
    requires Runs(h, n) && Runs(g, n + 1) && Extends(h, g, n) && n < |commands|
    requires AllAnswered(h, n, commands, results) && Answered(g, n + 1, n, commands[n], r)
    ensures AllAnswered(g, n + 1, commands, results + [r])
  {
    forall i | 0 <= i < n + 1
      ensures Answered(g, n + 1, i, commands[i], (results + [r])[i])
    {
      if i < n {
        assert Answered(h, n, i, commands[i], results[i]);
        assert g.rows.calls[i] == g.rows.calls[..n][i] && g.rows.states[i] == g.rows.states[..n + 1][i];
        assert g.documents.calls[i] == g.documents.calls[..n][i];
        assert g.documents.states[i] == g.documents.states[..n + 1][i];
        assert g.sequences.calls[i] == g.sequences.calls[..n][i] && g.anonymous.calls[i] == g.anonymous.calls[..n][i];
      }
    }
  }

  // ----- The tables together

  /** The drafts of all four tables. */
  datatype Tables = Tables(rows: Rows, sequences: Sequences, documents: Documents, anonymous: Anonymous)

  ghost predicate Reaches(h: History, t: Tables, n: nat)
  {
    && h.rows.Follows(t.rows, n) && h.sequences.Follows(t.sequences, n)
    && h.documents.Follows(t.documents, n) && h.anonymous.Follows(t.anonymous, n)
  }

  function Recorded(h: History, calls: Calls, t: Tables): History
  {
    History(Record(h.rows, calls.rows, t.rows), Record(h.sequences, calls.sequences, t.sequences),
            Record(h.documents, calls.documents, t.documents), Record(h.anonymous, calls.anonymous, t.anonymous))
  }

  ghost predicate Steps(was: Tables, now: Tables, calls: Calls)
  {
    && Step(was.rows, now.rows, calls.rows) && Dense(now.rows)
    && Step(was.sequences, now.sequences, calls.sequences) && Dense(now.sequences)
    && Step(was.documents, now.documents, calls.documents) && Dense(now.documents)
    && Step(was.anonymous, now.anonymous, calls.anonymous) && Dense(now.anonymous)
  }

  lemma RecordedReaches(h: History, was: Tables, n: nat, calls: Calls, now: Tables)
    requires Reaches(h, was, n) && Steps(was, now, calls)
    ensures Reaches(Recorded(h, calls, now), now, n + 1)
    ensures Extends(h, Recorded(h, calls, now), n)
  {
    RecordFollows(h.rows, was.rows, n, calls.rows, now.rows);
    RecordFollows(h.sequences, was.sequences, n, calls.sequences, now.sequences);
    RecordFollows(h.documents, was.documents, n, calls.documents, now.documents);
    RecordFollows(h.anonymous, was.anonymous, n, calls.anonymous, now.anonymous);
  }

  ghost function Drafts(b: NativeArenaBuilder): Tables
    reads b
  {
    Tables(b.rows.drafts, b.sequences.drafts, b.documents.drafts, b.anonymous.drafts)
  }

  lemma ValidDense(b: NativeArenaBuilder)
    requires b.Valid()
    ensures Dense(b.rows.drafts) && Dense(b.sequences.drafts) && Dense(b.documents.drafts) && Dense(b.anonymous.drafts)
  {
  }

  // ----- Which commands succeed

  /** The requests counted by each table. */
  datatype Counts = Counts(rows: nat, sequences: nat, documents: nat, anonymous: nat)

  /** All that decides about further commands. */
  datatype Situation = Situation(tables: Tables, asked: Counts, budget: Budget)

  ghost function Now(b: NativeArenaBuilder): Situation
    reads b
  {
    Situation(Drafts(b), Counts(b.rows.requests, b.sequences.requests, b.documents.requests, b.anonymous.requests),
              b.budget)
  }

  /** The table of the command is asked. */
  predicate Asks(b: NativeArenaBuilder, s: Situation, c: Command)
  {
    match c
    case Row(data, _) => b.AsksRow(s.asked.rows, data)
    case Sequence(_, elements, _, _) => b.AsksSequence(s.tables.rows, s.asked.sequences, elements)
    case Document(_, _) => b.AsksDocument(s.asked.documents)
    case Identity(document, localKey, _) => b.AsksIdentity(s.tables.documents, s.asked.anonymous, document, localKey)
  }

  /** The sequence table can take the canonical form of the members. */
  ghost predicate SequenceFits(b: NativeArenaBuilder, s: Situation, c: Command)
    requires c.Sequence?
  {
    exists form ::
      && IsForm(s.tables.rows, c.kind, c.elements, form)
      && b.FormFits(s.tables.sequences, s.budget, SequenceKey(c.kind, form), c.elements, c.copies, c.allocates)
  }

  /** What is asked for is there already, or there is room for it. */
  ghost predicate Fits(b: NativeArenaBuilder, s: Situation, c: Command)
    requires Asks(b, s, c)
  {
    match c
    case Row(data, allocates) =>
      || Holds(s.tables.rows, data)
      || Room(|s.tables.rows|, b.limits.rows, s.budget, b.sizes.RowCost(data), allocates)
    case Sequence(_, _, _, _) => SequenceFits(b, s, c)
    case Document(scope, allocates) =>
      || Holds(s.tables.documents, scope)
      || Room(|s.tables.documents|, b.limits.documents, s.budget, b.sizes.document, allocates)
    case Identity(document, localKey, allocates) =>
      || Holds(s.tables.anonymous, AnonymousKey(s.tables.documents[document].key, localKey))
      || Room(|s.tables.anonymous|, b.limits.anonymous, s.budget, b.sizes.AnonymousCost(localKey), allocates)
  }

  ghost predicate Succeeds(b: NativeArenaBuilder, s: Situation, c: Command)
  {
    Asks(b, s, c) && Fits(b, s, c)
  }

  /** The counters after a command. */
  function CountsAfter(b: NativeArenaBuilder, s: Situation, c: Command): Counts
  {
    var asks := Asks(b, s, c);
    match c
    case Row(_, _) => s.asked.(rows := Counting(s.asked.rows, asks))
    case Sequence(_, _, _, _) => s.asked.(sequences := Counting(s.asked.sequences, asks))
    case Document(_, _) => s.asked.(documents := Counting(s.asked.documents, asks))
    case Identity(_, _, _) => s.asked.(anonymous := Counting(s.asked.anonymous, asks))
  }

  /** The budget after a command that leaves these tables. */
  function BudgetAfter(b: NativeArenaBuilder, s: Situation, c: Command, t: Tables): Budget
  {
    match c
    case Row(data, _) => Spent(s.budget, |s.tables.rows|, |t.rows|, b.sizes.RowCost(data))
    case Sequence(_, elements, _, _) =>
      Spent(s.budget, |s.tables.sequences|, |t.sequences|, b.sizes.SequenceCost(elements))
    case Document(_, _) => Spent(s.budget, |s.tables.documents|, |t.documents|, b.sizes.document)
    case Identity(_, localKey, _) =>
      Spent(s.budget, |s.tables.anonymous|, |t.anonymous|, b.sizes.AnonymousCost(localKey))
  }

  /** The command succeeds exactly when it can, and leaves counters and budget accordingly. */
  ghost predicate Passes(b: NativeArenaBuilder, s: Situation, c: Command, r: Interned, t: Situation)
  {
    && (r.Id? <==> Succeeds(b, s, c))
    && t.asked == CountsAfter(b, s, c)
    && t.budget == BudgetAfter(b, s, c, t.tables)
  }

  // ----- One command

  method AskRow(b: NativeArenaBuilder, c: Command) returns (r: Interned, ghost calls: Calls)
    requires b.Valid() && c.Row?
    modifies b
    ensures b.Valid() && Steps(old(Drafts(b)), Drafts(b), calls)
    ensures Answers(old(b.rows.drafts), old(b.documents.drafts), calls, c, r)
    ensures Passes(b, old(Now(b)), c, r, Now(b))
  {
    r := b.InternCanonicalRow(c.data, c.allocates);
    calls := QUIET.(rows := Call(c.data, r));
    ValidDense(b);
  }

  lemma FormDecides(b: NativeArenaBuilder, s: Situation, c: Command, form: seq<nat>)
    requires c.Sequence? && Asks(b, s, c) && Dense(s.tables.rows)
    requires IsForm(s.tables.rows, c.kind, c.elements, form)
    ensures SequenceFits(b, s, c)
       <==> b.FormFits(s.tables.sequences, s.budget, SequenceKey(c.kind, form), c.elements, c.copies, c.allocates)
  {
    if c.kind == CanonicalSet {
      forall other | IsForm(s.tables.rows, c.kind, c.elements, other)
        ensures other == form
      {
        FormUnique(s.tables.rows, s.tables.rows, c.elements, c.elements, other, form);
      }
    }
  }

  method AskSequence(b: NativeArenaBuilder, c: Command) returns (r: Interned, ghost calls: Calls)
    requires b.Valid() && c.Sequence?
    modifies b
    ensures b.Valid() && Steps(old(Drafts(b)), Drafts(b), calls)
    ensures Answers(old(b.rows.drafts), old(b.documents.drafts), calls, c, r)
    ensures Passes(b, old(Now(b)), c, r, Now(b))
  {
    ghost var s, form := Now(b), [];
    ValidDense(b);
    r, form := b.InternSequence(c.kind, c.elements, c.copies, c.allocates);
    calls := QUIET.(sequences := Call(SequenceKey(c.kind, form), r));
    ValidDense(b);
    if Asks(b, s, c) {
      FormDecides(b, s, c, form);
    }
  }

  method AskDocument(b: NativeArenaBuilder, c: Command) returns (r: Interned, ghost calls: Calls)
    requires b.Valid() && c.Document?
    modifies b
    ensures b.Valid() && Steps(old(Drafts(b)), Drafts(b), calls)
    ensures Answers(old(b.rows.drafts), old(b.documents.drafts), calls, c, r)
    ensures Passes(b, old(Now(b)), c, r, Now(b))
  {
    r := b.InternDocumentScope(c.scope, c.allocates);
    calls := QUIET.(documents := Call(c.scope, r));
    ValidDense(b);
  }

  method AskIdentity(b: NativeArenaBuilder, c: Command) returns (r: Interned, ghost calls: Calls)
    requires b.Valid() && c.Identity?
    modifies b
    ensures b.Valid() && Steps(old(Drafts(b)), Drafts(b), calls)
    ensures Answers(old(b.rows.drafts), old(b.documents.drafts), calls, c, r)
    ensures Passes(b, old(Now(b)), c, r, Now(b))
  {
    calls := QUIET;
    r := b.InternAnonymous(c.document, c.localKey, c.allocates);
    if c.document < |b.documents.drafts| {
      calls := calls.(anonymous := Call(AnonymousKey(b.documents.drafts[c.document].key, c.localKey), r));
    }
    ValidDense(b);
  }

  /** Nothing is given back, and the limit stays. */
  lemma BudgetKept(b: NativeArenaBuilder, s: Situation, c: Command, t: Tables)
    ensures var after := BudgetAfter(b, s, c, t); after.maximum == s.budget.maximum && after.used >= s.budget.used
  {
  }

  /** One command: the calls it makes answer it, and it succeeds exactly when it can. */
  method Execute(b: NativeArenaBuilder, c: Command) returns (r: Interned, ghost calls: Calls)
    requires b.Valid()
    modifies b
    ensures b.Valid() && Steps(old(Drafts(b)), Drafts(b), calls)
    ensures Answers(old(b.rows.drafts), old(b.documents.drafts), calls, c, r)
    ensures Passes(b, old(Now(b)), c, r, Now(b))
    ensures b.budget.maximum == old(b.budget.maximum) && b.budget.used >= old(b.budget.used)
  {
    ghost var s := Now(b);
    match c {
      case Row(_, _) => r, calls := AskRow(b, c);
      case Sequence(_, _, _, _) => r, calls := AskSequence(b, c);
      case Document(_, _) => r, calls := AskDocument(b, c);
      case Identity(_, _, _) => r, calls := AskIdentity(b, c);
    }
    BudgetKept(b, s, c, Drafts(b));
  }

  lemma AnsweredNow(h: History, was: Tables, n: nat, calls: Calls, now: Tables, c: Command, r: Interned)
    requires Reaches(h, was, n) && Steps(was, now, calls) && Answers(was.rows, was.documents, calls, c, r)
    ensures var g := Recorded(h, calls, now); Runs(g, n + 1) && Answered(g, n + 1, n, c, r)
  {
    RecordedReaches(h, was, n, calls, now);
  }

  // ----- Whole runs

  function Initial<K, P>(drafts: seq<Draft<K, P>>): Log<K, P> { Log([drafts], []) }

  /** In every run, two successful commands to one table get the same identifier exactly when they
      ask for the same thing. */
  lemma AnswersAgree(h: History, n: nat, commands: seq<Command>, results: seq<Interned>, i: nat, j: nat)
    requires Runs(h, n) && AllAnswered(h, n, commands, results) && i <= j < n
    requires SameTable(commands[i], commands[j]) && results[i].Id? && results[j].Id?
    ensures results[i] == results[j] <==> SameRequest(commands[i], commands[j])
  {
    assert Answered(h, n, i, commands[i], results[i]) && Answered(h, n, j, commands[j], results[j]);
    match commands[i]
    case Row(_, _) => RunsAreMaps(h.rows.states, h.rows.calls, i, j);
    case Sequence(_, xs, _, _) =>
      RunExtends(h.rows.states, h.rows.calls, i, j);
      SequencesAreMaps(h.sequences.states, h.sequences.calls, i, j, h.rows.states[i], h.rows.states[j],
                       xs, commands[j].elements);
    case Document(_, _) => RunsAreMaps(h.documents.states, h.documents.calls, i, j);
    case Identity(_, _, _) =>
      RunsAreMaps(h.anonymous.states, h.anonymous.calls, i, j);
      RunExtends(h.documents.states, h.documents.calls, i, j);
      DenseAt(h.documents.states[j]);
  }

  /** Successful commands to one table got the same identifier exactly when they asked for the same. */
  ghost predicate Agree(commands: seq<Command>, results: seq<Interned>)
    requires |results| == |commands|
  {
    forall i, j | 0 <= i <= j < |commands| && SameTable(commands[i], commands[j]) && results[i].Id? && results[j].Id? ::
      results[i] == results[j] <==> SameRequest(commands[i], commands[j])
  }

  lemma AllAgree(h: History, n: nat, commands: seq<Command>, results: seq<Interned>)
    requires Runs(h, n) && AllAnswered(h, n, commands, results) && n == |commands|
    ensures Agree(commands, results)
  {
    forall i, j | 0 <= i <= j < n && SameTable(commands[i], commands[j]) && results[i].Id? && results[j].Id?
      ensures results[i] == results[j] <==> SameRequest(commands[i], commands[j])
    {
      AnswersAgree(h, n, commands, results, i, j);
    }
  }

  /** The tables after that many commands of a history. */
  ghost function TablesAt(h: History, n: nat, i: nat): Tables
    requires Runs(h, n) && i <= n
  {
    Tables(h.rows.states[i], h.sequences.states[i], h.documents.states[i], h.anonymous.states[i])
  }

  /** The situations are those of the history, and each command passes from one to the next. */
  ghost predicate Unfolds(b: NativeArenaBuilder, h: History, n: nat, situations: seq<Situation>,
                          commands: seq<Command>, results: seq<Interned>)
    requires Runs(h, n)
  {
    && |situations| == n + 1 && |results| == n <= |commands|
    && (forall i | 0 <= i <= n :: situations[i].tables == TablesAt(h, n, i))
    && (forall i {:trigger results[i]} | 0 <= i < n ::
          Passes(b, situations[i], commands[i], results[i], situations[i + 1]))
  }

  lemma RecordedTables(h: History, n: nat, calls: Calls, t: Tables, i: nat)
    requires Runs(h, n) && Runs(Recorded(h, calls, t), n + 1) && i <= n + 1
    ensures TablesAt(Recorded(h, calls, t), n + 1, i) == if i <= n then TablesAt(h, n, i) else t
  {
  }

  lemma UnfoldsStep(b: NativeArenaBuilder, h: History, n: nat, situations: seq<Situation>, commands: seq<Command>,
                    results: seq<Interned>, calls: Calls, r: Interned, s: Situation)
    requires Runs(h, n) && Runs(Recorded(h, calls, s.tables), n + 1) && n < |commands|
    requires Unfolds(b, h, n, situations, commands, results) && Passes(b, situations[n], commands[n], r, s)
    ensures Unfolds(b, Recorded(h, calls, s.tables), n + 1, situations + [s], commands, results + [r])
  {
    forall i | 0 <= i <= n + 1
      ensures (situations + [s])[i].tables == TablesAt(Recorded(h, calls, s.tables), n + 1, i)
    {
      RecordedTables(h, n, calls, s.tables, i);
    }
    forall i | 0 <= i < n + 1
      ensures Passes(b, (situations + [s])[i], commands[i], (results + [r])[i], (situations + [s])[i + 1])
    {
      if i < n {
        assert Passes(b, situations[i], commands[i], results[i], situations[i + 1]);
      }
    }
  }

  /** Drives a builder through any list of commands.  Its history is a run of every table, so that
      identifiers never change and answers are those of four plain maps; and every command succeeds
      exactly when the situation it meets allows it. */
  method Drive(b: NativeArenaBuilder, commands: seq<Command>)
    returns (results: seq<Interned>, ghost h: History, ghost situations: seq<Situation>)
    requires b.Valid()
    modifies b
    ensures b.Valid() && b.budget.maximum == old(b.budget.maximum) && b.budget.used >= old(b.budget.used)
    ensures |results| == |commands| && Reaches(h, Drafts(b), |commands|)
    ensures Runs(h, |commands|) && AllAnswered(h, |commands|, commands, results)
    ensures Unfolds(b, h, |commands|, situations, commands, results)
    ensures situations[0] == old(Now(b)) && situations[|commands|] == Now(b)
    ensures Agree(commands, results)
  {
    results := [];
    h := History(Initial(b.rows.drafts), Initial(b.sequences.drafts),
                 Initial(b.documents.drafts), Initial(b.anonymous.drafts));
    ghost var first := Now(b);
    situations := [first];
    for n := 0 to |commands|
      invariant b.Valid() && b.budget.maximum == first.budget.maximum && b.budget.used >= first.budget.used
      invariant Reaches(h, Drafts(b), n) && AllAnswered(h, n, commands, results)
      invariant Unfolds(b, h, n, situations, commands, results)
      invariant situations[0] == first && situations[n] == Now(b)
    {
      ghost var was, calls := Drafts(b), QUIET;
      var r;
      r, calls := Execute(b, commands[n]);
      RecordedReaches(h, was, n, calls, Drafts(b));
      AnsweredNow(h, was, n, calls, Drafts(b), commands[n], r);
      ghost var g := Recorded(h, calls, Drafts(b));
      AnsweredExtends(h, g, n, commands, results, r);
      UnfoldsStep(b, h, n, situations, commands, results, calls, r, Now(b));
      h, results, situations := g, results + [r], situations + [Now(b)];
    }
    AllAgree(h, |commands|, commands, results);
  }
}
