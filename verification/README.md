# A verified model of the pyOWLCore native core

pyOWLCore keeps an ontology as canonical byte rows: every structural node is encoded once, rows are
interned in an arena, closures of documents are fingerprinted and merged by their bytes, and the
result is framed as a wire image. A comparator runner beside it normalises what another library
parsed and serves results over a framed protocol. This project models those parts in Dafny and
proves what the rest of the system relies on, for all inputs and all runs.

The modules follow the program.

- `Ordering`, `Varint`, `FixedWidth`: byte strings and their order, sorting and deduplication,
  base-128 and fixed-width numbers.
- `Canonical`: the node encoder and canonical sets.
- `AnnotationStripping`, `LogicalFingerprint`, `RowSchema`, `ClosureOrigins`, `OriginRows`: the closure
  pipeline over encoded rows, its fingerprint preimage, the fields rows have, and its origin table.
- `EvidenceLedger`, `EvidencePreparation`, `AuxiliaryPlan`, `ClosureEvidence`, `AbandonedConversion`,
  `EvidencePeaks`, `EvidenceGuards`: the byte ledger of the closure pipeline, everything that is entered in
  it from the first check to the published owner, the one way in which it gets ahead of what is owned, and
  all that it is asked for and can be stopped by.
- `InternTable`, `ArenaBuilder`, `ArenaRuns`, `ArenaLimits`, `ArenaFreeze`: the hash-consing arena builder,
  from one interning call through whole runs and their limits to the frozen tables.
- `SignatureIndex`, `SignatureMeaning`: reference counts by a stack walk over the component arena, and what
  they count.
- `Sha256Stream`: the streaming hasher over an arbitrary compression function.
- `TermOrder`, `ReificationMerge`, `EquivalenceComponents`: the two coalescing passes of the comparator
  runner, and the order of terms they choose by.
- `PersistentRunner`: the runner's request protocol as a state machine over its events.
- `WireTable`, `WireImage`, `WireTiling`, `WireReader`, `WireWriter`, `WireEncode`,
  `WireRoundTrip`, `WireSpaced`, `WireContents`: the wire framing oracle, reader and writer.
- `Minimizer`: the delta-debugging loop.

Code that updates state in place is a class or a method with loops, proved against a specification;
what is promised of the specification is proved beside it. Every order key is a `seq<int>`; tuple
orders with fixed-width parts are compared through concatenation (`Ordering.LexTuple`). What a key, a
guard or a limit decides is stated again without it, on the data it looks at: terms, bytes, frames,
categories and numbers.

Hashing, checksums and the contents of requests are parameters: properties are stated of preimages,
never of digests. Allocation failures and guard checks are parameters or steps that may fail.

Some promises hold only under a condition. Each comes with a lemma that gives inputs where it fails
and with an equivalence that says when it holds.

- A field tells where it ends exactly when it is not an integer without digits
  (`Canonical.DelimitedIffDigits`); with such an integer two trees share one encoding
  (`Canonical.EmptyIntegerIsAmbiguous`). Every caller of the encoder supplies a digit; under this guarantee,
  `WellFormed`, equal bytes mean equal trees (`Canonical.EncodeDecides`).
- A canonical set contains a node of the flattened tag exactly when some input of that tag was not
  built from a set or has a member of the same tag (`Canonical.CanonicalSetNested`;
  `Canonical.NestedSetRemains` gives such sets). Nodes combined from canonical sets from the ground up never do
  (`Canonical.CombinedTidy`).
- Stripping annotations undoes the encoder exactly when the row has the declared number of fields, the
  last is a set and every number can be read back (`AnnotationStripping.StripUndoesEncode`). The reader of
  varints takes up to ten bytes and drops what exceeds 64 bits (`Varint.ReadUndoesLeb`), so an integer of
  2^70 or more among the fields decides alone (`AnnotationStripping.HugeIntegerRefused`). Rows of the
  schema never meet this: no tag has both an integer and a set at its end, and nested nodes are skipped by
  their length. For them the tag decides alone (`RowSchema.SchemaStrips`), every logical axiom can be
  stripped, and of the extension rows exactly the whole rules can (`RowSchema.ClosureUsable`).
- The ledger of closure evidence retains exactly what is owned whenever the preparation returns, except
  when it ends in the conversion of the auxiliary rows: their owner is then gone while the ledger still
  counts them (`ClosureEvidence.PrepareEvidence`). It ends there exactly when nothing stops it before and
  the conversion fails or is refused a workspace (`AbandonedConversion.LostExactly`); whatever the
  documents and the limits, a request above the limit brings this about
  (`AbandonedConversion.LedgerRunsAhead`, `AbandonedConversion.ModestRunsAhead`).
- Generated nodes are chosen by their zero-filled index, which is the order of numbers for indices with
  equally many places, so for all below 10^20 (`TermOrder.LowerIffPrecedes`, `TermOrder.SmallIndices`);
  10^20 itself comes before 2 * 10^19 (`TermOrder.LargeIndices`). Indices count the nodes of a document.
- The minimizer's result is 1-minimal except for a single byte that could also go
  (`Minimizer.Minimize`), so it always is exactly for predicates that do not accept both the empty string
  and some single byte (`Minimizer.MinimizeTame`, `Minimizer.MinimizeUntame`).
- An accepted wire image is written again byte for byte exactly when its directory is compact
  (`WireRoundTrip.ReadAndReencode`); every written image has accepted twins that are not
  (`WireSpaced.Twins`, `WireSpaced.OtherLayouts`).

## Model

| member | source | states |
|---|---|---|
| `Varint.LebDenotes` | native/src/canonical.rs:206-215 | the base-128 form of a number is one complete varint with that value |
| `Varint.LebMinimal` | native/src/canonical.rs:206-215 | it is the unique shortest varint of its value: any other is longer and ends in a zero byte |
| `Varint.LebPrefixFree` | native/src/canonical.rs:206-215 | no varint is a prefix of another, so what follows one is determined |
| `Varint.EncodeU64` | native/src/canonical.rs:206-215 | the shift loop appends the base-128 form of any 64-bit number |
| `Varint.DivideBy128` | native/src/canonical.rs:236-252 | one pass of long division keeps digits in 0..9, returns quotient and remainder of the represented number, and finds the first nonzero digit |
| `Varint.DecimalGroups` | native/src/canonical.rs:231-255 | repeated division ends and yields the base-128 digits of a decimal string of any length |
| `Varint.EncodeDecimal` | native/src/canonical.rs:221-262 | a nonempty decimal string is written as the minimal varint of its value, the same bytes `EncodeU64` writes; an empty one as nothing |
| `Varint.ReadVarintLoop` | native/src/bindings/ingestion_closure.rs:2324-2348 | the shift-and-accumulate loop reads what its specification reads, overflow of the tenth byte included |
| `Varint.ReadUndoesLeb` | native/src/bindings/ingestion_closure.rs:2324-2348 | a minimal varint is read back modulo 2^64 when it is below 2^70, and refused otherwise |
| `Varint.ReadVarintLocal` | native/src/bindings/ingestion_closure.rs:2324-2348 | a successful read depends only on the bytes it consumed |
| `Ordering.LexByDifference` | native/src/canonical.rs:140-141 | byte strings are ordered by the first place where they differ, and a prefix comes before its continuations |
| `FixedWidth.LowestFirst` | tools/wire_reference/reference.py:18-19 | little-endian words have their lowest byte first |
| `FixedWidth.LowestLast` | native/src/hash.rs:56-76 | big-endian words have it last |
| `Canonical.FieldBytes` | native/src/canonical.rs:151-191 | the marker and the bytes of every kind of field, in numbers |
| `Canonical.EncodeFrame` | native/src/canonical.rs:193-204 | appends length and value |
| `Canonical.AppendField` | native/src/canonical.rs:151-191 | appends marker and payload of any field, nested nodes included |
| `Canonical.Build` | native/src/canonical.rs:40-62 | the built bytes are the encoding of the tree of tag and fields |
| `Canonical.EncodeInjective` | native/src/canonical.rs:151-219 | equal encodings of trees whose integers have digits imply equal tags and equal fields at every depth |
| `Canonical.EncodeDecides` | native/src/canonical.rs:151-219 | for such trees bytes are equal exactly when the trees are the same, so deduplication by bytes is structural |
| `Canonical.DelimitedIffDigits` | native/src/canonical.rs:151-191 | a field is told apart from whatever follows it exactly when it is not an integer without digits |
| `Canonical.EmptyIntegerIsAmbiguous` | native/src/canonical.rs:221-262 | with an empty digit string two different trees have one encoding |
| `Canonical.CanonicalSet` | native/src/canonical.rs:119-149 | succeeds exactly when enough distinct members remain, and then lists the flattened members strictly ascending; without a value of the flattened tag these are the values themselves |
| `Canonical.CanonicalSetUnique` | native/src/canonical.rs:119-149 | the list depends only on the set of flattened encodings |
| `Canonical.FlattenKeeps` | native/src/canonical.rs:124-139 | a node remains exactly when it is a value that is no conjunction or disjunction of the flattened tag with a member set, or a member of one that is |
| `Canonical.CanonicalSetMeans` | native/src/canonical.rs:119-149 | under every valuation the members of the result all hold, for a conjunction, exactly when the values do, and one of them holds, for a disjunction, exactly when one of the values does |
| `Canonical.CanonicalSetNested` | native/src/canonical.rs:123-139 | the list holds a node of the flattened tag exactly when some input of that tag was not built from a set or has a member of the same tag |
| `Canonical.NestedSetRemains` | native/src/canonical.rs:123-139 | flattening a conjunction of any node of a lower tag and a conjunction of any two different members leaves the inner conjunction in the list |
| `Canonical.CombinedTidy` | native/src/ingestion/owlxml.rs:910-924 | what is combined from tidy nodes is tidy: boolean nodes built from the ground up never nest |
| `AnnotationStripping.SkipComponent` | native/src/bindings/ingestion_closure.rs:2266-2311 | the recursive skip stops where its specification stops, with the same failures |
| `AnnotationStripping.WithoutAnnotations` | native/src/bindings/ingestion_closure.rs:2238-2264 | the loop over fields computes the stripping function, errors included |
| `AnnotationStripping.FieldSkipped` | native/src/bindings/ingestion_closure.rs:2266-2311 | skipping at an encoded field lands just behind it exactly when its numbers can be read back |
| `AnnotationStripping.StripUndoesEncode` | native/src/bindings/ingestion_closure.rs:2238-2264 | stripping the encoding of a node succeeds exactly when the node can be stripped, and gives the encoding of the node with its last set emptied |
| `AnnotationStripping.HugeIntegerRefused` | native/src/bindings/ingestion_closure.rs:2324-2348 | put into any place but the last of a row that can be stripped, an integer leaves it so exactly when it is below 2^70, although the encoder writes any |
| `AnnotationStripping.StrippedAgree` | native/src/bindings/ingestion_closure.rs:2238-2264 | two stripped rows agree exactly when tag and all fields but the last agree |
| `AnnotationStripping.StripIdempotent` | native/src/bindings/ingestion_closure.rs:2238-2264 | on every accepted row, encoded by this encoder or not, stripping twice is stripping once |
| `LogicalFingerprint.CollectLogical` | native/src/bindings/ingestion_closure.rs:1682-1720 | collects exactly the stripped logical axioms, and fails exactly on an unusable row |
| `LogicalFingerprint.CollectExtensions` | native/src/bindings/ingestion_closure.rs:1721-1757 | collects exactly the stripped extensions |
| `LogicalFingerprint.SortDedup` | native/src/bindings/ingestion_closure.rs:1774-1780 | the strictly ascending list of the distinct rows |
| `LogicalFingerprint.PrepareLogicalFingerprint` | native/src/bindings/ingestion_closure.rs:1607-1802 | the hashed bytes are the preimage of the two sets of stripped rows, in any order and with any repetitions of the input |
| `LogicalFingerprint.PreimageRead` | native/src/bindings/ingestion_closure.rs:1781-1801 | reading the preimage left to right gives domain, policy, number of axioms, each axiom after its length, number of extensions, each extension after an E and its length, and then the end |
| `LogicalFingerprint.PreimageInjective` | native/src/bindings/ingestion_closure.rs:1781-1801 | different pairs of row lists have different preimages |
| `LogicalFingerprint.FingerprintDecides` | native/src/bindings/ingestion_closure.rs:1607-1802 | two preimages are equal exactly when both sets of stripped rows are equal |
| `LogicalFingerprint.TreesDecide` | native/src/bindings/ingestion_closure.rs:1607-1802 | two closures of trees have equal preimages exactly when their logical axioms and their extensions are the same sets up to annotations |
| `RowSchema.RulesComplete` | native/src/model/canonical.rs:483-604 | a field has a rule exactly when its index is below the field count of its tag |
| `RowSchema.NoIntegerBeforeSet` | native/src/model/canonical.rs:483-604 | no tag whose last field is a set has an integer field |
| `RowSchema.LogicalTags` | native/src/bindings/ingestion_closure.rs:2317-2322 | the logical axioms are the axiom tags of the schema without declarations and annotation axioms |
| `RowSchema.SchemaStrips` | native/src/bindings/ingestion_closure.rs:2238-2264 | a row of the schema is stripped exactly when its tag ends in a set, whatever it holds, and the result is a row of the schema again |
| `RowSchema.ClosureUsable` | native/src/bindings/ingestion_closure.rs:1682-1757 | of a validated closure every axiom row can be used, and all extension rows exactly when each is a whole rule |
| `RowSchema.ClosuresDecide` | native/src/bindings/ingestion_closure.rs:1607-1802 | two validated closures have equal preimages exactly when their logical axioms and their rules are the same sets up to annotations |
| `ClosureOrigins.ValidateDocumentKeys` | native/src/bindings/ingestion_closure.rs:1559-1582 | accepts exactly the strictly ascending key lists of good keys that contain the root |
| `ClosureOrigins.CollectEntries` | native/src/bindings/ingestion_closure.rs:1899-1905 | reads every origin row of every document once, and fails exactly on a malformed one |
| `ClosureOrigins.EntryOrder` | native/src/bindings/ingestion_closure.rs:1907-1913 | the key orders entries by digest, document, ordinal and row, in that order |
| `ClosureOrigins.DuplicatesAdjacent` | native/src/bindings/ingestion_closure.rs:1914-1918 | a row repeated anywhere in the sorted table is repeated side by side |
| `ClosureOrigins.AdjacentRepetition` | native/src/bindings/ingestion_closure.rs:1914-1918 | comparing neighbours detects every repetition |
| `ClosureOrigins.MergeClosureOrigins` | native/src/bindings/ingestion_closure.rs:1876-1969 | returns a sorted permutation of all rows, reports repetition exactly when there is one and malformed rows exactly when there are some |
| `ClosureOrigins.PrepareOrigins` | native/src/bindings/ingestion_closure.rs:1158-1490 | validation makes the keys distinct, so that validating and merging needs no precondition |
| `OriginRows.AcceptedRows` | native/src/bindings/ingestion_closure.rs:1971-2003 | the rows accepted for a document are exactly those written from a digest, its key with length, an occurrence and a rest |
| `OriginRows.MergedOrder` | native/src/bindings/ingestion_closure.rs:1907-1913 | the merged table is strictly ordered by digest, document key, occurrence and row, read from the bytes of the rows |
| `OriginRows.AcceptedKeys` | native/src/bindings/ingestion_closure.rs:1559-1582 | key lists are accepted exactly when their keys are nonempty, below 0x80 and strictly ascending, and the root is one of them |
| `EvidenceLedger.EvidenceBudget.constructor` | native/src/bindings/ingestion_closure.rs:620-629 | a fresh ledger retains nothing and has been asked for nothing; its first check is an entry like any other |
| `EvidenceLedger.EvidenceBudget.EnsureTemporary` | native/src/bindings/ingestion_closure.rs:631-689 | a workspace is asked for, and admitted exactly when it is, with what is retained, within a word and the temporary limit, and with the bytes that were live before within a word and the memory limit |
| `EvidenceLedger.EvidenceBudget.Retain` | native/src/bindings/ingestion_closure.rs:640-647 | the retained bytes grow exactly when admitted |
| `EvidenceLedger.EvidenceBudget.Release` | native/src/bindings/ingestion_closure.rs:649-655 | the retained bytes shrink, or the call fails exactly on underflow |
| `EvidenceLedger.Verdict` | native/src/bindings/ingestion_closure.rs:614-689 | for every script of entries: a run goes through exactly when no guard stops it, no release underflows and every workspace asked for is admitted, and then retains what the script adds up to |
| `EvidenceLedger.AskedInOrder` | native/src/bindings/ingestion_closure.rs:631-638 | in every run the workspaces asked for are the first of the script, and only the last can have been refused |
| `EvidenceLedger.Judgement` | native/src/bindings/ingestion_closure.rs:658-689 | a run without program errors is done exactly when no guard stops it and its largest workspace is admitted |
| `EvidenceLedger.JudgedByNumbers` | native/src/bindings/ingestion_closure.rs:658-689 | of what a run asked for everything but a refused last workspace is within both limits, and the refused one is not |
| `EvidencePreparation.Keep` | native/src/bindings/ingestion_closure.rs:1318-1329 | a structure asks for its temporaries on top of what is retained at that point, and is then entered with its own size |
| `EvidencePreparation.KeepRows` | native/src/bindings/ingestion_closure.rs:1318-1417 | source map, both origin tables and RDF report in source order; at every return the ledger has grown by the parts that are kept |
| `EvidencePreparation.PrepareDocument` | native/src/bindings/ingestion_closure.rs:1226-1443 | one document runs the script of its parts in source order, and at every return, failing ones included, the ledger has grown by exactly the parts that are kept |
| `AuxiliaryPlan.Stage` | native/src/bindings/ingestion_closure.rs:945-970 | a staging table is admitted before and after its allocation, with its predicted and its actual size |
| `AuxiliaryPlan.StageAll` | native/src/bindings/ingestion_closure.rs:1006-1046 | stages exactly the tables that some document needs, each on top of the ones before it |
| `AuxiliaryPlan.Take` | native/src/bindings/ingestion_closure.rs:1049-1090 | moving the rows of a document into the staging tables neither creates nor loses a byte |
| `AuxiliaryPlan.GatherRows` | native/src/bindings/ingestion_closure.rs:1049-1090 | however far the checkpoints let it come, documents and staging together hold as much as before |
| `AuxiliaryPlan.StageDocuments` | native/src/bindings/ingestion_closure.rs:972-1096 | up to the conversion the ledger retains exactly what is owned, at every return; misaligned documents are refused exactly |
| `AuxiliaryPlan.PrepareAuxiliaryPlan` | native/src/bindings/ingestion_closure.rs:972-1128 | given a ledger that retains what is owned, release never underflows, and at every return it again does, except for the input of an abandoned conversion; on success rows and staging are exchanged for the owner |
| `ClosureEvidence.AlwaysAligned` | native/src/bindings/ingestion_closure.rs:992-1005 | the documents of a closure are always aligned, so that branch is unreachable |
| `ClosureEvidence.PrepareDocuments` | native/src/bindings/ingestion_closure.rs:1221-1443 | all documents in order, with the ledger grown by exactly the documents and parts that are kept |
| `ClosureEvidence.Digest` | native/src/bindings/ingestion_closure.rs:1493-1526 | the merged origins are entered, digested and dropped, and their release cannot underflow |
| `ClosureEvidence.PrepareContent` | native/src/bindings/ingestion_closure.rs:1170-1526 | at every return before the auxiliary plan the ledger retains exactly what is owned |
| `ClosureEvidence.PrepareEvidence` | native/src/bindings/ingestion_closure.rs:1143-1557 | over every run: no underflow; done exactly when no guard stops it and the largest workspace is admitted; every workspace asked for is the next one of the script, is within the temporary and the memory limit, and only the last can exceed one of them and be refused; the ledger retains what is owned except after an abandoned conversion; the final figure is table plus keys plus owner |
| `EvidenceLedger.SolventVerdict` | native/src/bindings/ingestion_closure.rs:614-689 | a script that never releases more than is retained is done exactly when no guard stops it and every workspace is admitted |
| `AbandonedConversion.ReachingGrows` | native/src/bindings/ingestion_closure.rs:1143-1557 | up to the conversion nothing is released that was not entered, and table, keys, rows and staging are retained when it starts |
| `AbandonedConversion.LostExactly` | native/src/bindings/ingestion_closure.rs:1097-1116 | for every input: the run ends in the conversion exactly when no guard stops it before, every workspace before is admitted, and the conversion fails by itself or asks for more than is admitted on top of what is retained |
| `AbandonedConversion.LedgerRunsAhead` | native/src/bindings/ingestion_closure.rs:1097-1116 | every run that reaches the conversion, whatever its documents and limits, ends in it when the conversion asks for more than the limit; whenever source maps are kept the ledger then retains more than is owned |
| `AbandonedConversion.ModestRunsAhead` | native/src/bindings/ingestion_closure.rs:1097-1116 | there is such an input with sizes that structures can have |
| `EvidencePeaks.AskedInNumbers` | native/src/bindings/ingestion_closure.rs:1143-1557 | for every input the workspaces asked for, in numbers: each request on top of the table, the documents and the parts that are entered by then, the conversion on top of the staging tables, and the owner in the place of what was handed over |
| `EvidenceGuards.UnguardedExactly` | native/src/bindings/ingestion_closure.rs:1143-1557 | the failures besides the limits that stop the preparation, and that no others do |
| `InternTable.Lookup` | native/src/builder.rs:177-190 | finds a key exactly when some draft has it, under any bucketing function |
| `InternTable.BucketsHold` | native/src/builder.rs:227-243 | filing drafts in order puts every draft in its bucket and nothing else |
| `InternTable.RunsAreMaps` | native/src/builder.rs:170-517 | in every run of calls on a table, two successful calls return the same identifier exactly when their keys are equal |
| `InternTable.RunExtends` | native/src/builder.rs:170-517 | identifiers are stable: the drafts of any state are a prefix of those of any later state |
| `ArenaBuilder.Answer` | native/src/builder.rs:177-250 | lookup or append: succeeds exactly for a known key or where there is room, charges exactly the new draft, counts a hit exactly for a known key, and its counters cannot overflow |
| `ArenaBuilder.NativeArenaBuilder.constructor` | native/src/builder.rs:145-168 | an empty builder is valid |
| `ArenaBuilder.NativeArenaBuilder.InternCanonicalRow` | native/src/builder.rs:170-251 | keeps the builder valid, interns by full bytes, succeeds exactly under the stated limits, and takes exactly the memory of a new draft; a refused call changes neither rows nor budget |
| `ArenaBuilder.NativeArenaBuilder.InternSequence` | native/src/builder.rs:253-367 | interns by kind and canonical form, and succeeds exactly when the members are known, fit and can be copied and the form is held or has room |
| `ArenaBuilder.NativeArenaBuilder.InternDocumentScope` | native/src/builder.rs:369-409 | interns scopes by a linear scan with the same guarantees |
| `ArenaBuilder.NativeArenaBuilder.InternAnonymous` | native/src/builder.rs:411-517 | interns by scope and local key, and keeps every identity at the document of its scope |
| `ArenaBuilder.Form` | native/src/builder.rs:278-290 | ordered sequences are kept; canonical sets become the list of their members in strictly ascending row order |
| `ArenaBuilder.SequencesAreMaps` | native/src/builder.rs:253-367 | two sequence requests of a run agree exactly when they ask for the same list, or for the same members of a canonical set |
| `ArenaRuns.Execute` | native/src/builder.rs:170-517 | any command keeps the builder valid, asks its own table and no other, is one step of the run of every table, and succeeds exactly when tables, counters and budget before it allow; counters and budget after it are determined |
| `ArenaRuns.AnswersAgree` | native/src/builder.rs:170-517 | in every run of mixed commands, two answers of one table are the same identifier exactly when the commands ask for the same thing |
| `ArenaRuns.Drive` | native/src/builder.rs:170-517 | driving the builder through any list of commands gives a run of each of its four tables, and so four plain maps; every command succeeds exactly when the situation it meets allows it, from the first situation to the last |
| `ArenaLimits.RowSucceeds` | native/src/builder.rs:170-251 | a row is interned exactly when it scans, its request can be counted, and it is held or a number below the limit and the bytes for it are left |
| `ArenaLimits.SequenceSucceeds` | native/src/builder.rs:253-367 | a sequence is interned exactly when it is within the arity, its members are known and can be copied, and its form is held or a number and the bytes for it are left |
| `ArenaLimits.DocumentSucceeds` | native/src/builder.rs:369-409 | the same for scopes |
| `ArenaLimits.IdentitySucceeds` | native/src/builder.rs:411-517 | an identity is interned exactly when its document is known, its local key neither empty nor too long, and it is held or a number and the bytes for it are left |
| `ArenaLimits.CommandCosts` | native/src/builder.rs:170-517 | a new draft costs its bytes, its record and an identifier, anything else nothing, and the peak is the most ever used |
| `ArenaLimits.RunsWithin` | native/src/builder.rs:170-517 | along every run no table has more drafts than its limit |
| `ArenaFreeze.Renumber` | native/src/builder.rs:520-533 | the remap sends every old identifier to the place of its draft in the sorted table |
| `ArenaFreeze.ResortIsIdentity` | native/src/builder.rs:541-544 | sorting and deduplicating a renumbered canonical set changes nothing |
| `ArenaFreeze.RemapSequence` | native/src/builder.rs:535-545 | a remapped sequence lists the same row bytes and has the same length |
| `ArenaFreeze.MoveIdentities` | native/src/builder.rs:563-571 | every anonymous identity still points at the document with its own scope |
| `ArenaFreeze.FrozenUnique` | native/src/builder.rs:519-640 | the content, as sets of rows, meanings, scopes and identities, determines the frozen tables, whatever the order of interning |
| `ArenaFreeze.FrozenOrdered` | native/src/builder.rs:519-573 | frozen rows are ordered by bytes, sequences by kind and element numbers, documents by scope, identities by scope and local key |
| `ArenaFreeze.FreezeTables` | native/src/builder.rs:519-625 | the frozen tables are strictly sorted, list exactly what was interned with its meaning, and retain exactly the footprint of the drafts |
| `ArenaFreeze.Freeze` | native/src/builder.rs:519-640 | succeeds exactly when the use plus four bytes a row and document plus the frozen records is within a word and the maximum, and the peak rises to that; it covers the retained bytes, although canonical sets were charged before deduplication |
| `SignatureIndex.PushFieldNodes` | native/src/index/signature.rs:406-433 | pushes the nodes of a field, nested sequences included, in order; interrupted exactly when one of its steps is stopped |
| `SignatureIndex.Walk` | native/src/index/signature.rs:331-370 | the walk without a visited set ends on every acyclic arena, finds exactly the entities some path reaches, takes exactly the steps of all paths, and is interrupted exactly when one of them is stopped |
| `SignatureIndex.IncrementRootEntities` | native/src/index/signature.rs:316-378 | one more root: every count is again the number of roots that reach the entity; fails only on an unindexed entity or a stopped step, never by overflow |
| `SignatureIndex.IndexEntities` | native/src/index/signature.rs:129-141 | accepts tables of distinct entities, refuses only others, and is interrupted only where a step is stopped |
| `SignatureIndex.CountAnnotations` | native/src/index/signature.rs:150-171 | counts all annotation roots; refused only for a foreign category or an unindexed entity, interrupted only where its work is stopped |
| `SignatureIndex.CountAxiom` | native/src/index/signature.rs:172-229 | an axiom adds to the references, to the logical counts unless its tag is 120 to 123, and to the declarations of its entity; the entity of a declaration is always indexed |
| `SignatureIndex.CountAxioms` | native/src/index/signature.rs:172-229 | all three tallies after the axiom table |
| `SignatureIndex.CountExtensions` | native/src/index/signature.rs:230-267 | both tallies after the extension table, with exactly the work of its walks |
| `SignatureIndex.CountsBounded` | native/src/index/signature.rs:269-282 | logical and declaration counts never exceed references |
| `SignatureIndex.DivergesOnlyUnused` | native/src/index/signature.rs:269-282 | the final check fires exactly for an entity that no root reaches |
| `SignatureIndex.LinksConserved` | native/src/index/signature.rs:284-286 | links summed over entities are links summed over roots |
| `SignatureIndex.Build` | native/src/index/signature.rs:57-313 | the index is built exactly from valid, fully used tables within limits under a guard that stops none of its steps and neither of its forced checks, and counts, per entity, exactly the roots that reach it |
| `SignatureMeaning.ChildrenMentioned` | native/src/index/signature.rs:406-433 | a walk goes on to the components that occur in a field, in a collection or nested in one |
| `SignatureMeaning.ReachesMeets` | native/src/index/signature.rs:331-370 | with annotations a root reaches an entity exactly along a chain of mentions without another entity on it |
| `SignatureMeaning.ReachesPlainly` | native/src/index/signature.rs:331-370 | without annotations exactly along such a chain that no annotation is on |
| `SignatureMeaning.IndexCounts` | native/src/index/signature.rs:150-313 | the references of an entity are the rows that meet it; its plain count the rules, and the axioms with a tag outside 120 to 123, that meet it without an annotation on the way; its declarations the axioms of tag 60 that start with it |
| `SignatureMeaning.OnlyAnnotated` | native/src/index/signature.rs:150-313 | an entity met only below annotations or by annotation axioms has a plain count of zero and is referenced all the same |
| `SignatureMeaning.TablesAccepted` | native/src/index/signature.rs:129-267 | tables are valid exactly when entities are different, roots have the category of their table and meet listed entities only, and declarations start with an entity |
| `Sha256Stream.PadIsFips` | native/src/hash.rs:56-76 | the padding is that of section 5.1.1 of FIPS 180-4 for every length below 2^61 bytes |
| `Sha256Stream.Hasher.Update` | native/src/hash.rs:30-54 | absorbs the input, with less than a block left over |
| `Sha256Stream.Hasher.Finish` | native/src/hash.rs:56-76 | folds the compression function over the padded message, in one or two final blocks |
| `Sha256Stream.HashParts` | native/src/hash.rs:30-76 | any split of a message into updates gives the digest of the whole |
| `Sha256Stream.Sha256` | native/src/hash.rs:188-192 | one-shot hashing is that digest |
| `ReificationMerge.ResolveReplacement` | benchmarks/comparators/runners/py_horned_common.py:1092-1102 | reports a circle only where the chain has one, and otherwise follows it to its end; on replacements that lower the sort key it always reaches the root, so the cycle error is unreachable |
| `TermOrder.SortKeyInjective` | benchmarks/comparators/runners/py_horned_common.py:1105-1113 | the sort key tells resources apart |
| `TermOrder.LowerIffPrecedes` | benchmarks/comparators/runners/py_horned_common.py:1105-1113 | IRIs come before blank nodes before generated nodes; IRIs and labels are compared by code points, generated nodes by the digits of their indices |
| `TermOrder.SmallIndices` | benchmarks/comparators/runners/py_horned_common.py:1105-1113 | indices below 10^20 are compared as numbers |
| `TermOrder.LargeIndices` | benchmarks/comparators/runners/py_horned_common.py:1105-1113 | 10^20 comes before 2 * 10^19 |
| `ReificationMerge.AddEdge` | benchmarks/comparators/runners/py_horned_common.py:1310-1314 | a new edge between roots redirects exactly the class of the upper one |
| `ReificationMerge.CheckSubjects` | benchmarks/comparators/runners/py_horned_common.py:1266-1275 | fails exactly when a subject carries two different triples |
| `ReificationMerge.GroupReifications` | benchmarks/comparators/runners/py_horned_common.py:1279-1294 | groups are the classes of equal resolved triples |
| `ReificationMerge.MergeGroup` | benchmarks/comparators/runners/py_horned_common.py:1298-1314 | a group gets one root, nothing is identified that a congruence keeps apart, and the map grows exactly when something changed |
| `ReificationMerge.Round` | benchmarks/comparators/runners/py_horned_common.py:1297-1316 | a pass changes the map strictly or finds it closed, although groups are formed before the map grows |
| `ReificationMerge.ReplacementFixpoint` | benchmarks/comparators/runners/py_horned_common.py:1296-1316 | the loop ends with a closed and sound map |
| `ReificationMerge.FixpointIsLeastCongruence` | benchmarks/comparators/runners/py_horned_common.py:1279-1316 | terms resolve alike exactly when every congruence relates them |
| `ReificationMerge.ResolvesToLeast` | benchmarks/comparators/runners/py_horned_common.py:1296-1316 | each class resolves to its least term |
| `ReificationMerge.ResolvesToFirst` | benchmarks/comparators/runners/py_horned_common.py:1297-1318 | a class with an IRI resolves to its first IRI, one without but with a blank node to its first blank node, and any other to its first generated node |
| `ReificationMerge.ResolutionUnique` | benchmarks/comparators/runners/py_horned_common.py:1296-1316 | the resolution does not depend on the order of merging |
| `ReificationMerge.ChooseRepresentative` | benchmarks/comparators/runners/py_horned_common.py:1335-1341 | prefers the element that carries the term, and then document order |
| `ReificationMerge.RedirectDuplicates` | benchmarks/comparators/runners/py_horned_common.py:1318-1344 | every group is settled on one element that carries its root |
| `ReificationMerge.CoalesceReifications` | benchmarks/comparators/runners/py_horned_common.py:1266-1344 | succeeds exactly on unambiguous input; every class is named by its first IRI, without one by its first blank node, and only without either by its first generated node, and keeps exactly one survivor, the first element in document order that carries this name |
| `EquivalenceComponents.AddAxiom` | benchmarks/comparators/runners/py_horned_common.py:750-764 | the loop that resets its index ends and computes the scan of its specification |
| `EquivalenceComponents.ScanComponents` | benchmarks/comparators/runners/py_horned_common.py:750-764 | absorbing everything that overlaps keeps the components a partition into connected cells |
| `EquivalenceComponents.CoalesceEquivalences` | benchmarks/comparators/runners/py_horned_common.py:725-778 | the output lists the components of every kind and all other axioms, with strictly rising first occurrences |
| `EquivalenceComponents.CellsAreConnectedComponents` | benchmarks/comparators/runners/py_horned_common.py:745-764 | cells are exactly the connected components: the least equivalence that joins overlapping axioms |
| `EquivalenceComponents.CoalescingPreservesMeaning` | benchmarks/comparators/runners/py_horned_common.py:725-778 | an equivalence satisfies the components exactly when it satisfies the axioms |
| `EquivalenceComponents.AnnotationsPreserved` | benchmarks/comparators/runners/py_horned_common.py:750-776 | an annotation is on some component exactly when it was on some axiom |
| `PersistentRunner.PreimageText` | benchmarks/comparators/runners/py_horned_common.py:1791-1793 | the preimage is three decimal numbers without leading zeros, with colons between: process, counter, sequence |
| `PersistentRunner.PreimageInjective` | benchmarks/comparators/runners/py_horned_common.py:1791-1793 | the text pid:counter:sequence determines all three numbers |
| `PersistentRunner.RoundsAreResponses` | benchmarks/comparators/runners/py_horned_common.py:1708-1715 | in every conversation the round number is the number of responses made |
| `PersistentRunner.ResponseFollowsPublish` | benchmarks/comparators/runners/py_horned_common.py:1794-1818 | before every response come, with nothing between them, request, prepared, execute, completed and publish of its number, field by field: execute and publish name this process, completed, publish and response one instance, and the result is that of the request; responses are numbered 0, 1, 2, ... |
| `PersistentRunner.InstancesDiffer` | benchmarks/comparators/runners/py_horned_common.py:1791-1801 | the instance ids in two response frames of a conversation are digests of different preimages |
| `PersistentRunner.ConversationsTrace` | benchmarks/comparators/runners/py_horned_common.py:1684-1818 | every conversation that keeps the protocol is a handshake, complete rounds numbered 0, 1, 2, ..., and then part of a round, a refused frame or a shutdown |
| `PersistentRunner.TracesConverse` | benchmarks/comparators/runners/py_horned_common.py:1684-1818 | every trace of that form keeps the protocol and ends in the phase of its ending |
| `PersistentRunner.KeepsToRounds` | benchmarks/comparators/runners/py_horned_common.py:1684-1818 | keeping the protocol is having such a trace |
| `PersistentRunner.RequestFrame` | benchmarks/comparators/runners/py_horned_common.py:1740-1748 | the request frames of a number are those with just its four fields, any content in the last |
| `PersistentRunner.ExecuteFrame` | benchmarks/comparators/runners/py_horned_common.py:1767-1777 | there is just one execute frame of a number and a process |
| `PersistentRunner.PublishFrame` | benchmarks/comparators/runners/py_horned_common.py:1821-1848 | there is just one publish frame of a number, a process and an instance, and none if the instance is no digest in lower case |
| `PersistentRunner.ShutdownFrame` | benchmarks/comparators/runners/py_horned_common.py:1723-1730 | there is just one shutdown frame of a number |
| `PersistentRunner.RefusedOtherwise` | benchmarks/comparators/runners/py_horned_common.py:1718-1848 | where a frame is awaited, exactly these are not refused |
| `PersistentRunner.ClosedByShutdown` | benchmarks/comparators/runners/py_horned_common.py:1723-1739 | a closed conversation ends with the shutdown of its number and the acknowledgement, field by field |
| `PersistentRunner.StartsWithHandshake` | benchmarks/comparators/runners/py_horned_common.py:1684-1704 | every conversation starts with a handshake that names protocol and process |
| `PersistentRunner.Runner.Release` | benchmarks/comparators/runners/py_horned_common.py:1803-1850 | the result leaves only after a publish that matches number, process and instance |
| `PersistentRunner.Runner.Serve` | benchmarks/comparators/runners/py_horned_common.py:1718-1818 | one request runs to the next idle state, a shutdown is acknowledged, and anything else breaks off where a frame was refused or missing |
| `PersistentRunner.Runner.Run` | benchmarks/comparators/runners/py_horned_common.py:1684-1715 | every run has such a trace, reads frames in order without loss, and ends only by acknowledged shutdown, refusal, silence or exhausted numbers |
| `WireTable.ValidateTable` | tools/wire_reference/reference.py:317-338 | accepts exactly the regular sections |
| `WireTable.RegularIffTable` | tools/wire_reference/reference.py:317-338 | a section is regular exactly when it is the offset encoding of a strictly ascending row list of that length |
| `WireTable.TableUnique` | tools/wire_reference/reference.py:317-338 | the row list is determined by the section |
| `WireImage.DirectoryRead` | tools/wire_reference/reference.py:123-124 | unpacking a packed directory gives its entries |
| `WireImage.DirectoryWritten` | tools/wire_reference/reference.py:278-290 | packing unpacked entries gives the bytes |
| `WireImage.HeaderRead` | tools/wire_reference/reference.py:91-115 | a packed header passes the field checks and gives back its fields |
| `WireImage.HeaderWritten` | tools/wire_reference/reference.py:91-115 | data that passes the field checks starts with the packed header of its fields |
| `WireTiling.CheckTiling` | tools/wire_reference/reference.py:154-161 | sorting and walking accepts exactly when sections lie within the data, each ends before the next starts in the order of offset and kind, all else is zero and the last reaches the end |
| `WireReader.CheckEntry` | tools/wire_reference/reference.py:125-149 | accepts exactly the entries the format allows |
| `WireReader.AcceptedUnique` | tools/wire_reference/reference.py:80-172 | an accepted image is determined by its bytes |
| `WireReader.ReadWire` | tools/wire_reference/reference.py:80-172 | accepts exactly the well-formed images, tiled by header, directory, disjoint sections and zeros, and returns what they hold |
| `WireContents.EntryAccepted` | tools/wire_reference/reference.py:123-149 | which entries are accepted, in the numbers of the format: flags, kinds by minor version and model schema, section schemas, offsets, lengths and digest |
| `WireContents.FieldsAt` | tools/wire_reference/reference.py:91-115 | every field of the header where it lies, with its value |
| `WireContents.SealAt` | tools/wire_reference/reference.py:116-119 | digest and checksum are those of the bytes with both of them blanked |
| `WireContents.EntryAt` | tools/wire_reference/reference.py:123-124 | every field of a directory entry where it lies |
| `WireContents.KindsRising` | tools/wire_reference/reference.py:122-127 | the kinds of the entries rise strictly |
| `WireContents.SectionHeld` | tools/wire_reference/reference.py:145-151 | the bytes an entry points at are what the image holds under its kind |
| `WireContents.KindsHeld` | tools/wire_reference/reference.py:150-153 | the image holds the kinds of its entries and no others; kinds 1 to 14 are all there and exactly they are flagged 1 |
| `WireWriter.PlanTiled` | tools/wire_reference/reference.py:259-276 | the planned sections tile the data |
| `WireWriter.ReadsBack` | tools/wire_reference/reference.py:246-314 | a written image is accepted exactly when every section is allowed, and reading gives back what was written |
| `WireEncode.PlanDirectory` | tools/wire_reference/reference.py:258-276 | the cursor loop places every section at the next multiple of eight |
| `WireEncode.EncodeSections` | tools/wire_reference/reference.py:246-314 | gives the sealed image of the sections in the order of their kinds, or fails exactly for a missing section or a field out of range |
| `WireRoundTrip.ReproducedIffCompact` | tools/wire_reference/reference.py:175-190 | an accepted image is reproduced exactly when its directory is compact |
| `WireRoundTrip.ReadAndReencode` | tools/wire_reference/reference.py:175-190 | reading and encoding again returns the same bytes exactly for compact images |
| `WireRoundTrip.EncodeAndReturn` | tools/wire_reference/reference.py:175-314 | encode, read, encode again: reading succeeds exactly for allowed sections, returns them, and the second image equals the first |
| `WireSpaced.Twins` | tools/wire_reference/reference.py:151-161 | every written image has, for each later place its sections can start from, a twin that is accepted exactly like it, holds the same sections and has no compact directory |
| `WireSpaced.OtherLayouts` | tools/wire_reference/reference.py:80-190 | whatever the hashes, some accepted image is not written again byte for byte |
| `Minimizer.Width` | tools/security/minimize.py:26-26 | the chunk width is positive, smaller than the input, and one at full granularity |
| `Minimizer.Reduction` | tools/security/minimize.py:28-34 | finds the first chunk, counted in multiples of the width, whose removal is accepted, or that none is; none of width one means 1-minimal |
| `Minimizer.CutIsSubsequence` | tools/security/minimize.py:29-29 | removing a chunk leaves a subsequence |
| `Minimizer.Minimize` | tools/security/minimize.py:14-39 | ends for every predicate with an accepted subsequence, 1-minimal exactly unless it is a single byte that could also go |
| `Minimizer.MinimizeTame` | tools/security/minimize.py:14-39 | under a tame predicate every result is 1-minimal |
| `Minimizer.MinimizeUntame` | tools/security/minimize.py:14-39 | for any other predicate some accepted byte comes back although it could go |

## Left out

- The compression function of SHA-256 and CRC32C: parameters, and nothing is said of collisions.
- XML parsing, IRI resolution and the type-by-type mapping of the comparator runner: the two passes start
  from the lists of reification records and of equivalence axioms. Duplicate elements are
  redirected by occurrence; the editing of the element tree is not modelled.
- The validation of canonical rows (`scan_canonical`): a function of a row. Of its rules `RowSchema` has the
  number and the kinds of fields of every tag, not the roles of their members.
- The Python bindings, cancellation, deadlines and interrupts: steps that may fail.
- Framing and JSON decoding of runner messages: a frame is a map of fields, or unreadable. The string
  constants of the protocol are distinct symbols, and the handshake may announce anything beside schema,
  protocol and process.
- The struct sizes of the builder: parameters, except that identifiers take four bytes. Platform words
  are 64 bits wide.
- ArenaFreeze.Freeze: works on copies of the builder's tables instead of consuming the builder and sorting
  its vectors in place; one flag stands for all its allocations.
- ArenaBuilder.Answer: stands for the three bucketed tables, whose code differs only in their keys.
- ClosureEvidence.PrepareEvidence: the parts of a document, the conversion and the fingerprints come with
  their sizes, the workspaces they ask for and whether they stop by themselves; what they compute is not
  modelled here. A size that overflows a word is refused where it is asked for. Storage is owned from
  its entry until it is dropped or handed to the conversion; a structure whose entry is refused, and what a
  failing call still holds, goes when the call returns.
- LogicalFingerprint.PrepareLogicalFingerprint: the memory checks and checkpoints that can also refuse it are
  entries of the evidence script (`ClosureEvidence.FingerprintScript`), not of this contract.
- LogicalFingerprint.CollectLogical: without these checks, as above.
- LogicalFingerprint.CollectExtensions: without these checks, as above.
- ClosureOrigins.MergeClosureOrigins: the memory checks and checkpoints that can also refuse it are entries of
  the evidence script (`ClosureEvidence.MergeScript`), not of this contract.
- AuxiliaryPlan.PrepareAuxiliaryPlan: the conversion is one piece of work with its requests and its own ways to
  stop; how it computes the peak it reports is not modelled.
- SignatureIndex.Build: the arena holds every component it refers to and none refers back to itself, as arenas
  are built; the memory checks of the workspace and the sizes reported beside the counts are not modelled.
- WireEncode.EncodeSections: assembles header, directory and body one after the other instead of packing
  them into one buffer of zeros.
- ReificationMerge.CoalesceReifications: subjects are resources and occurrences are distinct, as the passes
  before it leave them; decimal indices compare as digits.
