/** Coalescing the equivalence axioms of an RDF graph: overlapping axioms of one type are merged
    into the connected components they span, in place of their first occurrence. */
module EquivalenceComponents {
  import opened Ordering

  datatype Kind = EquivalentClasses | EquivalentObjectProperties | EquivalentDataProperties | SameIndividual

  /** Structural nodes and annotations, up to structural equality. */
  type Node = nat

  datatype Axiom = Other(content: nat) | Equivalence(kind: Kind, members: set<Node>, annotations: set<Node>)

  datatype Component = Component(occurrence: nat, members: set<Node>, annotations: set<Node>)

  // ----- Connected components of the axioms of one kind

  predicate Has(axioms: seq<Axiom>, kind: Kind, i: nat)
  {
    i < |axioms| && axioms[i].Equivalence? && axioms[i].kind == kind
  }

  ghost predicate Overlap(axioms: seq<Axiom>, kind: Kind, i: nat, j: nat)
  {
    Has(axioms, kind, i) && Has(axioms, kind, j) && axioms[i].members * axioms[j].members != {}
  }

  /** An equivalence that relates all overlapping axioms of the kind. */
  ghost predicate Links(axioms: seq<Axiom>, kind: Kind, R: (nat, nat) -> bool)
  {
    && (forall i :: R(i, i))
    && (forall i, j | R(i, j) :: R(j, i))
    && (forall i, j, k | R(i, j) && R(j, k) :: R(i, k))
    && (forall i, j | Overlap(axioms, kind, i, j) :: R(i, j))
  }

  ghost predicate AllRelated(cell: set<nat>, R: (nat, nat) -> bool)
  {
    forall i, j | i in cell && j in cell :: R(i, j)
  }

  /** The cell cannot be split without separating overlapping axioms. */
  ghost predicate Connected(axioms: seq<Axiom>, kind: Kind, cell: set<nat>)
  {
    forall R | Links(axioms, kind, R) :: AllRelated(cell, R)
  }

  ghost function MembersOf(axioms: seq<Axiom>, cell: set<nat>): set<Node>
  {
    set i, x | i in cell && i < |axioms| && axioms[i].Equivalence? && x in axioms[i].members :: x
  }

  ghost function AnnotationsOf(axioms: seq<Axiom>, cell: set<nat>): set<Node>
  {
    set i, a | i in cell && i < |axioms| && axioms[i].Equivalence? && a in axioms[i].annotations :: a
  }

  /** `c` is the merge of the axioms of a connected cell, placed at the first of them. */
  ghost predicate Merges(axioms: seq<Axiom>, kind: Kind, c: Component, cell: set<nat>)
  {
    && (forall i | i in cell :: Has(axioms, kind, i) && c.occurrence <= i)
    && c.occurrence in cell
    && c.members == MembersOf(axioms, cell)
    && c.annotations == AnnotationsOf(axioms, cell)
    && Connected(axioms, kind, cell)
  }

  /** The cells partition the axioms of the kind among `domain`, and no two components share a
      member. */
  ghost predicate Partition(axioms: seq<Axiom>, kind: Kind, domain: set<nat>, grouped: seq<Component>,
                            cells: seq<set<nat>>)
  {
    && |grouped| == |cells|
    && (forall g | 0 <= g < |cells| :: cells[g] <= domain)
    && (forall g, h | 0 <= g < h < |cells| :: cells[g] !! cells[h] && grouped[g].members !! grouped[h].members)
    && (forall i | i in domain && Has(axioms, kind, i) :: Covered(cells, i))
  }

  ghost predicate Covered(cells: seq<set<nat>>, i: nat)
  {
    exists g :: 0 <= g < |cells| && i in cells[g]
  }

  ghost predicate AllMerge(axioms: seq<Axiom>, kind: Kind, grouped: seq<Component>, cells: seq<set<nat>>)
  {
    |grouped| == |cells| && forall g | 0 <= g < |cells| :: Merges(axioms, kind, grouped[g], cells[g])
  }

  /** The components of the axioms of the kind among `domain`. */
  ghost predicate Components(axioms: seq<Axiom>, kind: Kind, domain: set<nat>, grouped: seq<Component>,
                             cells: seq<set<nat>>)
  {
    Partition(axioms, kind, domain, grouped, cells) && AllMerge(axioms, kind, grouped, cells)
  }

  // ----- Adding one axiom

  function Combine(c: Component, d: Component): Component
  {
    Component(if c.occurrence < d.occurrence then c.occurrence else d.occurrence,
              c.members + d.members, c.annotations + d.annotations)
  }

  lemma CombineMerges(axioms: seq<Axiom>, kind: Kind, c: Component, cell: set<nat>, d: Component, other: set<nat>)
    requires Merges(axioms, kind, c, cell) && Merges(axioms, kind, d, other)
    requires !(c.members !! d.members)
    ensures Merges(axioms, kind, Combine(c, d), cell + other)
  {
    var x :| x in c.members && x in d.members;
    var i :| i in cell && x in axioms[i].members;
    var j :| j in other && x in axioms[j].members;
    assert x in axioms[i].members * axioms[j].members;
    assert MembersOf(axioms, cell + other) == c.members + d.members;
    assert AnnotationsOf(axioms, cell + other) == c.annotations + d.annotations;
    forall R | Links(axioms, kind, R)
      ensures AllRelated(cell + other, R)
    {
      BridgeRelates(axioms, kind, cell, other, R, i, j);
    }
  }

  lemma BridgeRelates(axioms: seq<Axiom>, kind: Kind, cell: set<nat>, other: set<nat>, R: (nat, nat) -> bool, i: nat,
                      j: nat)
    requires Links(axioms, kind, R) && AllRelated(cell, R) && AllRelated(other, R)
    requires i in cell && j in other && Overlap(axioms, kind, i, j)
    ensures AllRelated(cell + other, R)
  {
    forall a, b | a in cell + other && b in cell + other
      ensures R(a, b)
    {
      assert R(i, j) && R(j, i);
      if a in cell && b in other {
        assert R(a, i) && R(i, j) && R(j, b);
        assert R(a, j);
      } else if a in other && b in cell {
        assert R(a, j) && R(j, i) && R(i, b);
        assert R(a, i);
      }
    }
  }

  function Without<T>(s: seq<T>, k: nat): (r: seq<T>)
    requires k < |s|
    ensures |r| == |s| - 1
    ensures forall g | 0 <= g < k :: r[g] == s[g]
    ensures forall g | k <= g < |r| :: r[g] == s[g + 1]
  {
    s[..k] + s[k + 1..]
  }

  lemma RemoveCell(axioms: seq<Axiom>, kind: Kind, domain: set<nat>, grouped: seq<Component>, cells: seq<set<nat>>,
                   k: nat)
    requires Partition(axioms, kind, domain, grouped, cells) && k < |grouped|
    ensures Partition(axioms, kind, domain - cells[k], Without(grouped, k), Without(cells, k))
  {
    var fewer := Without(cells, k);
    forall i | i in domain - cells[k] && Has(axioms, kind, i)
      ensures Covered(fewer, i)
    {
      assert Covered(cells, i);
      var g :| 0 <= g < |cells| && i in cells[g];
      var h := if g < k then g else g - 1;
      assert fewer[h] == cells[g];
    }
  }

  ghost predicate ClearOf(members: set<Node>, grouped: seq<Component>, n: nat)
    requires n <= |grouped|
  {
    forall g | 0 <= g < n :: members !! grouped[g].members
  }

  lemma AppendCell(axioms: seq<Axiom>, kind: Kind, domain: set<nat>, grouped: seq<Component>, cells: seq<set<nat>>,
                   c: Component, cell: set<nat>)
    requires Partition(axioms, kind, domain, grouped, cells)
    requires cell !! domain && ClearOf(c.members, grouped, |grouped|)
    ensures Partition(axioms, kind, domain + cell, grouped + [c], cells + [cell])
  {
    var more := cells + [cell];
    forall i | i in domain + cell && Has(axioms, kind, i)
      ensures Covered(more, i)
    {
      if i in cell {
        assert i in more[|cells|];
      } else {
        assert Covered(cells, i);
        var g :| 0 <= g < |cells| && i in cells[g];
        assert i in more[g];
      }
    }
  }

  /** Part way through a scan: axiom `n` and all it absorbed form `current`, the rest is untouched. */
  ghost predicate Scanning(axioms: seq<Axiom>, kind: Kind, n: nat, domain: set<nat>,
                           grouped: seq<Component>, cells: seq<set<nat>>, current: Component, cell: set<nat>)
  {
    && n in cell && cell <= domain + {n}
    && Merges(axioms, kind, current, cell)
    && Components(axioms, kind, domain - cell, grouped, cells)
  }

  lemma Absorb(axioms: seq<Axiom>, kind: Kind, n: nat, domain: set<nat>,
               grouped: seq<Component>, cells: seq<set<nat>>, current: Component, cell: set<nat>, k: nat)
    requires Scanning(axioms, kind, n, domain, grouped, cells, current, cell)
    requires k < |grouped| && !(current.members !! grouped[k].members)
    ensures Scanning(axioms, kind, n, domain, Without(grouped, k), Without(cells, k),
                     Combine(current, grouped[k]), cell + cells[k])
  {
    assert Merges(axioms, kind, grouped[k], cells[k]);
    CombineMerges(axioms, kind, current, cell, grouped[k], cells[k]);
    RemoveCell(axioms, kind, domain - cell, grouped, cells, k);
    assert domain - cell - cells[k] == domain - (cell + cells[k]);
  }

  lemma SingleMerges(axioms: seq<Axiom>, kind: Kind, n: nat)
    requires Has(axioms, kind, n)
    ensures Merges(axioms, kind, Component(n, axioms[n].members, axioms[n].annotations), {n})
  {
    assert MembersOf(axioms, {n}) == axioms[n].members && AnnotationsOf(axioms, {n}) == axioms[n].annotations;
  }

  lemma StartScan(axioms: seq<Axiom>, kind: Kind, n: nat, domain: set<nat>, grouped: seq<Component>,
                  cells: seq<set<nat>>)
    requires Has(axioms, kind, n) && n !in domain && Components(axioms, kind, domain, grouped, cells)
    ensures Scanning(axioms, kind, n, domain, grouped, cells,
                     Component(n, axioms[n].members, axioms[n].annotations), {n})
  {
    assert domain - {n} == domain;
    SingleMerges(axioms, kind, n);
  }

  /** What the scan computes: absorb overlapping components, restarting after each, then append. */
  function Scan(grouped: seq<Component>, current: Component, index: nat): seq<Component>
    requires index <= |grouped|
    decreases |grouped|, |grouped| - index
  {
    if index == |grouped| then grouped + [current]
    else if current.members !! grouped[index].members then Scan(grouped, current, index + 1)
    else Scan(Without(grouped, index), Combine(current, grouped[index]), 0)
  }

  lemma {:induction false} ScanComponents(axioms: seq<Axiom>, kind: Kind, n: nat, domain: set<nat>,
                                          grouped: seq<Component>, cells: seq<set<nat>>,
                                          current: Component, cell: set<nat>, index: nat)
    returns (result: seq<set<nat>>)
    requires Scanning(axioms, kind, n, domain, grouped, cells, current, cell)
    requires index <= |grouped| && ClearOf(current.members, grouped, index)
    ensures Components(axioms, kind, domain + {n}, Scan(grouped, current, index), result)
    decreases |grouped|, |grouped| - index
  {
    if index == |grouped| {
      AppendCell(axioms, kind, domain - cell, grouped, cells, current, cell);
      assert domain - cell + cell == domain + {n};
      result := cells + [cell];
    } else if current.members !! grouped[index].members {
      result := ScanComponents(axioms, kind, n, domain, grouped, cells, current, cell, index + 1);
    } else {
      Absorb(axioms, kind, n, domain, grouped, cells, current, cell, index);
      result := ScanComponents(axioms, kind, n, domain, Without(grouped, index), Without(cells, index),
                               Combine(current, grouped[index]), cell + cells[index], 0);
    }
  }

  function Single(axiom: Axiom, n: nat): Component
    requires axiom.Equivalence?
  {
    Component(n, axiom.members, axiom.annotations)
  }

  /** The scan as the source runs it, popping merged components off the list. */
  method AddAxiom(before: seq<Component>, axiom: Axiom, n: nat) returns (grouped: seq<Component>)
    requires axiom.Equivalence?
    ensures grouped == Scan(before, Single(axiom, n), 0)
  {
    grouped := before;
    var current := Single(axiom, n);
    var index := 0;
    while index < |grouped|
      invariant index <= |grouped|
      invariant Scan(grouped, current, index) == Scan(before, Single(axiom, n), 0)
      decreases |grouped|, |grouped| - index
    {
      if current.members !! grouped[index].members {
        index := index + 1;
        continue;
      }
      current := Combine(current, grouped[index]);
      grouped := Without(grouped, index);
      index := 0;
    }
    grouped := grouped + [current];
  }

  // ----- All axioms of a graph

  type Table = map<Kind, seq<Component>>

  ghost function UpTo(n: nat): (s: set<nat>)
    ensures forall i: nat :: i in s <==> i < n
  {
    if n == 0 then {} else UpTo(n - 1) + {n - 1}
  }

  function Grouped(table: Table, kind: Kind): seq<Component>
  {
    if kind in table then table[kind] else []
  }

  /** For every kind, the components of its axioms among the first `n`. */
  ghost predicate Coalesced(axioms: seq<Axiom>, n: nat, table: Table)
  {
    forall kind :: KindCoalesced(axioms, kind, n, Grouped(table, kind))
  }

  ghost predicate KindCoalesced(axioms: seq<Axiom>, kind: Kind, n: nat, grouped: seq<Component>)
  {
    exists cells :: Components(axioms, kind, UpTo(n), grouped, cells)
  }

  lemma EquivalenceAdded(axioms: seq<Axiom>, kind: Kind, n: nat, grouped: seq<Component>)
    requires n < |axioms| && KindCoalesced(axioms, kind, n, grouped) && Has(axioms, kind, n)
    ensures KindCoalesced(axioms, kind, n + 1, Scan(grouped, Single(axioms[n], n), 0))
  {
    var cells :| Components(axioms, kind, UpTo(n), grouped, cells);
    assert UpTo(n) + {n} == UpTo(n + 1);
    StartScan(axioms, kind, n, UpTo(n), grouped, cells);
    var more := ScanComponents(axioms, kind, n, UpTo(n), grouped, cells, Single(axioms[n], n), {n}, 0);
  }

  lemma OtherAdded(axioms: seq<Axiom>, kind: Kind, n: nat, domain: set<nat>, grouped: seq<Component>,
                   cells: seq<set<nat>>)
    requires Partition(axioms, kind, domain, grouped, cells) && !Has(axioms, kind, n)
    ensures Partition(axioms, kind, domain + {n}, grouped, cells)
  {
    forall g | 0 <= g < |cells|
      ensures cells[g] <= domain + {n}
    {
      assert cells[g] <= domain;
    }
  }

  lemma AxiomAdded(axioms: seq<Axiom>, kind: Kind, n: nat, grouped: seq<Component>)
    requires n < |axioms| && KindCoalesced(axioms, kind, n, grouped)
    ensures KindCoalesced(axioms, kind, n + 1,
              if Has(axioms, kind, n) then Scan(grouped, Single(axioms[n], n), 0) else grouped)
  {
    if Has(axioms, kind, n) {
      EquivalenceAdded(axioms, kind, n, grouped);
    } else {
      var cells :| Components(axioms, kind, UpTo(n), grouped, cells);
      OtherAdded(axioms, kind, n, UpTo(n), grouped, cells);
      assert Components(axioms, kind, UpTo(n) + {n}, grouped, cells);
      assert UpTo(n) + {n} == UpTo(n + 1);
    }
  }

  datatype Row = Row(occurrence: nat, axiom: Axiom)

  function FirstSeen(row: Row): seq<int> { [row.occurrence] }

  function Rebuilt(kind: Kind, c: Component): Row
  {
    Row(c.occurrence, Equivalence(kind, c.members, c.annotations))
  }

  /** Every other axiom at its own place and every component at its first occurrence. */
  ghost predicate Belongs(axioms: seq<Axiom>, table: Table, row: Row)
  {
    match row.axiom
    case Other(_) => row.occurrence < |axioms| && axioms[row.occurrence] == row.axiom
    case Equivalence(kind, members, annotations) =>
      Component(row.occurrence, members, annotations) in Grouped(table, kind)
  }

  /** A row stands where an axiom of its own type stood. */
  predicate InPlace(axioms: seq<Axiom>, row: Row)
  {
    match row.axiom
    case Other(_) => row.occurrence < |axioms| && axioms[row.occurrence].Other?
    case Equivalence(kind, _, _) => Has(axioms, kind, row.occurrence)
  }

  ghost predicate DistinctRows(rows: seq<Row>)
  {
    forall i, j | 0 <= i < j < |rows| :: rows[i].occurrence != rows[j].occurrence
  }

  lemma FirstOccurrences(axioms: seq<Axiom>, kind: Kind, grouped: seq<Component>)
    requires KindCoalesced(axioms, kind, |axioms|, grouped)
    ensures forall g | 0 <= g < |grouped| :: Has(axioms, kind, grouped[g].occurrence)
    ensures forall g, h | 0 <= g < h < |grouped| :: grouped[g].occurrence != grouped[h].occurrence
  {
    var cells :| Components(axioms, kind, UpTo(|axioms|), grouped, cells);
    forall g, h | 0 <= g < h < |grouped|
      ensures grouped[g].occurrence != grouped[h].occurrence
    {
      assert Merges(axioms, kind, grouped[g], cells[g]) && Merges(axioms, kind, grouped[h], cells[h]);
    }
  }

  function Extended(axioms: seq<Axiom>, n: nat, table: Table): Table
    requires n < |axioms|
  {
    if axioms[n].Other? then table
    else table[axioms[n].kind := Scan(Grouped(table, axioms[n].kind), Single(axioms[n], n), 0)]
  }

  lemma NothingCoalesced(axioms: seq<Axiom>)
    ensures Coalesced(axioms, 0, map[])
  {
    forall kind
      ensures KindCoalesced(axioms, kind, 0, Grouped(map[], kind))
    {
      assert Components(axioms, kind, UpTo(0), [], []);
    }
  }

  lemma CoalescedExtended(axioms: seq<Axiom>, n: nat, table: Table)
    requires n < |axioms| && Coalesced(axioms, n, table)
    ensures Coalesced(axioms, n + 1, Extended(axioms, n, table))
  {
    forall kind
      ensures KindCoalesced(axioms, kind, n + 1, Grouped(Extended(axioms, n, table), kind))
    {
      AxiomAdded(axioms, kind, n, Grouped(table, kind));
    }
  }

  function Others(axioms: seq<Axiom>, n: nat): seq<Row>
    requires n <= |axioms|
  {
    if n == 0 then []
    else if axioms[n - 1].Other? then Others(axioms, n - 1) + [Row(n - 1, axioms[n - 1])]
    else Others(axioms, n - 1)
  }

  lemma {:induction false} OthersBelong(axioms: seq<Axiom>, n: nat)
    requires n <= |axioms|
    ensures DistinctRows(Others(axioms, n))
    ensures forall row :: row in Others(axioms, n) <==>
                          row.occurrence < n && row.axiom.Other? && axioms[row.occurrence] == row.axiom
  {
    if n > 0 { OthersBelong(axioms, n - 1); }
  }

  function TableUpTo(axioms: seq<Axiom>, n: nat): Table
    requires n <= |axioms|
  {
    if n == 0 then map[] else Extended(axioms, n - 1, TableUpTo(axioms, n - 1))
  }

  lemma {:induction false} TableCoalesced(axioms: seq<Axiom>, n: nat)
    requires n <= |axioms|
    ensures Coalesced(axioms, n, TableUpTo(axioms, n))
  {
    if n == 0 {
      NothingCoalesced(axioms);
    } else {
      TableCoalesced(axioms, n - 1);
      CoalescedExtended(axioms, n - 1, TableUpTo(axioms, n - 1));
    }
  }

  /** Groups the axioms of every kind and collects the others. */
  method CollectComponents(axioms: seq<Axiom>) returns (table: Table, others: seq<Row>)
    ensures table == TableUpTo(axioms, |axioms|)
    ensures others == Others(axioms, |axioms|)
  {
    table, others := map[], [];
    for n := 0 to |axioms|
      invariant table == TableUpTo(axioms, n)
      invariant others == Others(axioms, n)
    {
      if axioms[n].Other? {
        others := others + [Row(n, axioms[n])];
      } else {
        var grouped := AddAxiom(Grouped(table, axioms[n].kind), axioms[n], n);
        table := table[axioms[n].kind := grouped];
      }
    }
  }

  const KINDS: seq<Kind> := [EquivalentClasses, EquivalentObjectProperties, EquivalentDataProperties, SameIndividual]

  /** Appends the components of one kind. */
  method EmitKind(table: Table, kind: Kind, before: seq<Row>) returns (rows: seq<Row>)
    ensures rows == before + Emitted(kind, Grouped(table, kind))
  {
    var grouped := Grouped(table, kind);
    rows := before;
    for g := 0 to |grouped|
      invariant rows == before + Emitted(kind, grouped[..g])
    {
      assert grouped[..g + 1] == grouped[..g] + [grouped[g]];
      rows := rows + [Rebuilt(kind, grouped[g])];
    }
    assert grouped[..|grouped|] == grouped;
  }

  function Emitted(kind: Kind, grouped: seq<Component>): (rows: seq<Row>)
    ensures |rows| == |grouped| && forall g | 0 <= g < |rows| :: rows[g] == Rebuilt(kind, grouped[g])
  {
    seq(|grouped|, g requires 0 <= g < |grouped| => Rebuilt(kind, grouped[g]))
  }

  lemma EmittedBelongs(axioms: seq<Axiom>, table: Table, kind: Kind, row: Row)
    ensures row in Emitted(kind, Grouped(table, kind))
       <==> row.axiom.Equivalence? && row.axiom.kind == kind && Belongs(axioms, table, row)
  {
    var grouped := Grouped(table, kind);
    var rows := Emitted(kind, grouped);
    if row.axiom.Equivalence? && row.axiom.kind == kind && Belongs(axioms, table, row) {
      var g :| 0 <= g < |grouped| && grouped[g] == Component(row.occurrence, row.axiom.members, row.axiom.annotations);
      assert rows[g] == row;
    }
  }

  ghost predicate AllInPlace(axioms: seq<Axiom>, rows: seq<Row>)
  {
    forall row | row in rows :: InPlace(axioms, row)
  }

  lemma EmittedDistinct(axioms: seq<Axiom>, table: Table, kind: Kind, before: seq<Row>)
    requires Coalesced(axioms, |axioms|, table) && DistinctRows(before) && AllInPlace(axioms, before)
    requires forall row | row in before && row.axiom.Equivalence? :: row.axiom.kind != kind
    ensures var rows := before + Emitted(kind, Grouped(table, kind)); DistinctRows(rows) && AllInPlace(axioms, rows)
  {
    var grouped := Grouped(table, kind);
    FirstOccurrences(axioms, kind, grouped);
    var rows := before + Emitted(kind, grouped);
    forall i, j | 0 <= i < j < |rows|
      ensures rows[i].occurrence != rows[j].occurrence
    {
      if i < |before| <= j {
        assert rows[i] in before && InPlace(axioms, rows[i]);
        assert rows[j] == Rebuilt(kind, grouped[j - |before|]);
      }
    }
  }

  /** The coalesced axioms: every row belongs, none is missing, and the order is that of first
      occurrence, in which no two rows tie. */
  method CoalesceEquivalences(axioms: seq<Axiom>) returns (output: seq<Axiom>, rows: seq<Row>, table: Table)
    ensures Coalesced(axioms, |axioms|, table)
    ensures Ascending(rows, FirstSeen) && forall row :: row in rows <==> Belongs(axioms, table, row)
    ensures forall i, j | 0 <= i < j < |rows| :: rows[i].occurrence < rows[j].occurrence
    ensures |output| == |rows| && forall i | 0 <= i < |rows| :: output[i] == rows[i].axiom
  {
    var components, unsorted := CollectComponents(axioms);
    table := components;
    OthersBelong(axioms, |axioms|);
    TableCoalesced(axioms, |axioms|);
    for k := 0 to |KINDS|
      invariant DistinctRows(unsorted) && AllInPlace(axioms, unsorted)
      invariant forall row :: row in unsorted <==>
                  Belongs(axioms, table, row) && (row.axiom.Equivalence? ==> row.axiom.kind in KINDS[..k])
    {
      assert KINDS[..k + 1] == KINDS[..k] + [KINDS[k]] && KINDS[k] !in KINDS[..k];
      EmittedDistinct(axioms, components, KINDS[k], unsorted);
      forall row
        ensures row in Emitted(KINDS[k], Grouped(components, KINDS[k]))
           <==> row.axiom.Equivalence? && row.axiom.kind == KINDS[k] && Belongs(axioms, components, row)
      {
        EmittedBelongs(axioms, components, KINDS[k], row);
      }
      unsorted := EmitKind(components, KINDS[k], unsorted);
    }
    forall kind: Kind
      ensures kind in KINDS[..|KINDS|]
    {
      EveryKind(kind);
    }
    var sorted := Sort(unsorted, FirstSeen);
    PermutationElements(sorted, unsorted);
    rows := sorted;
    SortedDistinct(sorted, unsorted);
    OccurrencesRise(sorted);
    output := [];
    for i := 0 to |sorted|
      invariant |output| == i && forall j | 0 <= j < i :: output[j] == sorted[j].axiom
    {
      output := output + [sorted[i].axiom];
    }
  }

  lemma OccurrencesRise(rows: seq<Row>)
    requires Ascending(rows, FirstSeen)
    ensures forall i, j | 0 <= i < j < |rows| :: rows[i].occurrence < rows[j].occurrence
  {
    forall i, j | 0 <= i < j < |rows|
      ensures rows[i].occurrence < rows[j].occurrence
    {
      var a, b := FirstSeen(rows[i]), FirstSeen(rows[j]);
      assert LexLess(a, b) && b[1..] == [] && !LexLess(a[1..], b[1..]);
    }
  }

  lemma EveryKind(kind: Kind)
    ensures kind in KINDS && KINDS[..|KINDS|] == KINDS
  {
    match kind {
      case EquivalentClasses => assert KINDS[0] == kind;
      case EquivalentObjectProperties => assert KINDS[1] == kind;
      case EquivalentDataProperties => assert KINDS[2] == kind;
      case SameIndividual => assert KINDS[3] == kind;
    }
  }

  lemma SortedDistinct(sorted: seq<Row>, unsorted: seq<Row>)
    requires multiset(sorted) == multiset(unsorted) && SortedBy(sorted, FirstSeen) && DistinctRows(unsorted)
    ensures Ascending(sorted, FirstSeen)
  {
    PermutationElements(sorted, unsorted);
    PermutationDistinct(unsorted, sorted);
    forall i, j | 0 <= i < j < |sorted|
      ensures FirstSeen(sorted[i]) != FirstSeen(sorted[j])
    {
      assert sorted[i] in unsorted && sorted[j] in unsorted;
      var a :| 0 <= a < |unsorted| && unsorted[a] == sorted[i];
      var b :| 0 <= b < |unsorted| && unsorted[b] == sorted[j];
      assert FirstSeen(sorted[i])[0] == sorted[i].occurrence && FirstSeen(sorted[j])[0] == sorted[j].occurrence;
    }
    SortedDistinctAscending(sorted, FirstSeen);
  }

  // ----- What coalescing means

  /** Two axioms end up in one component. */
  ghost function SameCell(cells: seq<set<nat>>): (nat, nat) -> bool
  {
    (i: nat, j: nat) => i == j || InOneCell(cells, i, j)
  }

  ghost predicate InOneCell(cells: seq<set<nat>>, i: nat, j: nat)
  {
    exists g :: 0 <= g < |cells| && i in cells[g] && j in cells[g]
  }

  /** The cells are exactly the connected components: the relation they span links all
      overlapping axioms, and it is contained in every relation that does. */
  lemma CellsAreConnectedComponents(axioms: seq<Axiom>, kind: Kind, grouped: seq<Component>, cells: seq<set<nat>>)
    requires Components(axioms, kind, UpTo(|axioms|), grouped, cells)
    ensures Links(axioms, kind, SameCell(cells))
    ensures forall R | Links(axioms, kind, R) :: Contains(R, SameCell(cells))
  {
    CellsLink(axioms, kind, grouped, cells);
    forall R | Links(axioms, kind, R)
      ensures Contains(R, SameCell(cells))
    {
      CellsContained(axioms, kind, grouped, cells, R);
    }
  }

  ghost predicate Contains(R: (nat, nat) -> bool, S: (nat, nat) -> bool)
  {
    forall i, j | S(i, j) :: R(i, j)
  }

  lemma CellsLink(axioms: seq<Axiom>, kind: Kind, grouped: seq<Component>, cells: seq<set<nat>>)
    requires Components(axioms, kind, UpTo(|axioms|), grouped, cells)
    ensures Links(axioms, kind, SameCell(cells))
  {
    var S := SameCell(cells);
    forall i: nat, j: nat, k: nat | S(i, j) && S(j, k)
      ensures S(i, k)
    {
      SameCellTransitive(cells, i, j, k);
    }
    forall i: nat, j: nat | Overlap(axioms, kind, i, j)
      ensures S(i, j)
    {
      OverlapSameCell(axioms, kind, grouped, cells, i, j);
    }
  }

  lemma SameCellTransitive(cells: seq<set<nat>>, i: nat, j: nat, k: nat)
    requires forall g, h | 0 <= g < h < |cells| :: cells[g] !! cells[h]
    requires SameCell(cells)(i, j) && SameCell(cells)(j, k)
    ensures SameCell(cells)(i, k)
  {
    if i != j && j != k {
      var g :| 0 <= g < |cells| && i in cells[g] && j in cells[g];
      var h :| 0 <= h < |cells| && j in cells[h] && k in cells[h];
      assert !(cells[g] !! cells[h]);
      assert g == h;
    }
  }

  lemma CellsContained(axioms: seq<Axiom>, kind: Kind, grouped: seq<Component>, cells: seq<set<nat>>,
                       R: (nat, nat) -> bool)
    requires AllMerge(axioms, kind, grouped, cells) && Links(axioms, kind, R)
    ensures Contains(R, SameCell(cells))
  {
    forall i, j | SameCell(cells)(i, j)
      ensures R(i, j)
    {
      if i != j {
        var g :| 0 <= g < |cells| && i in cells[g] && j in cells[g];
        assert Merges(axioms, kind, grouped[g], cells[g]);
        assert AllRelated(cells[g], R);
      }
    }
  }

  lemma OverlapSameCell(axioms: seq<Axiom>, kind: Kind, grouped: seq<Component>, cells: seq<set<nat>>, i: nat, j: nat)
    requires Components(axioms, kind, UpTo(|axioms|), grouped, cells) && Overlap(axioms, kind, i, j)
    ensures InOneCell(cells, i, j)
  {
    assert Covered(cells, i) && Covered(cells, j);
    var g :| 0 <= g < |cells| && i in cells[g];
    var h :| 0 <= h < |cells| && j in cells[h];
    var x :| x in axioms[i].members * axioms[j].members;
    assert x in MembersOf(axioms, cells[g]) && x in MembersOf(axioms, cells[h]);
    assert Merges(axioms, kind, grouped[g], cells[g]) && Merges(axioms, kind, grouped[h], cells[h]);
    assert !(grouped[g].members !! grouped[h].members);
    assert g == h;
  }

  ghost predicate IsEquivalence(E: (Node, Node) -> bool)
  {
    && (forall x :: E(x, x))
    && (forall x, y | E(x, y) :: E(y, x))
    && (forall x, y, z | E(x, y) && E(y, z) :: E(x, z))
  }

  /** The axiom asserts its members pairwise equivalent. */
  ghost predicate Satisfies(E: (Node, Node) -> bool, members: set<Node>)
  {
    forall x, y | x in members && y in members :: E(x, y)
  }

  /** Coalescing preserves meaning: an equivalence satisfies all input axioms of the kind exactly
      when it satisfies all components. */
  lemma CoalescingPreservesMeaning(axioms: seq<Axiom>, kind: Kind, grouped: seq<Component>, E: (Node, Node) -> bool)
    requires KindCoalesced(axioms, kind, |axioms|, grouped) && IsEquivalence(E)
    ensures (forall i: nat | Has(axioms, kind, i) :: Satisfies(E, axioms[i].members))
       <==> (forall g | 0 <= g < |grouped| :: Satisfies(E, grouped[g].members))
  {
    var cells :| Components(axioms, kind, UpTo(|axioms|), grouped, cells);
    if forall i: nat | Has(axioms, kind, i) :: Satisfies(E, axioms[i].members) {
      forall g | 0 <= g < |grouped|
        ensures Satisfies(E, grouped[g].members)
      {
        assert Merges(axioms, kind, grouped[g], cells[g]);
        CellSatisfied(axioms, kind, E, cells[g]);
      }
    }
    if forall g | 0 <= g < |grouped| :: Satisfies(E, grouped[g].members) {
      forall i: nat | Has(axioms, kind, i)
        ensures Satisfies(E, axioms[i].members)
      {
        assert Covered(cells, i);
        var g :| 0 <= g < |cells| && i in cells[g];
        assert Merges(axioms, kind, grouped[g], cells[g]);
        assert axioms[i].members <= MembersOf(axioms, cells[g]);
      }
    }
  }

  ghost predicate Cross(E: (Node, Node) -> bool, a: set<Node>, b: set<Node>)
  {
    a != {} && b != {} && forall x, y | x in a && y in b :: E(x, y)
  }

  /** Axioms all of whose members are equivalent to each other. */
  ghost function Agreeing(axioms: seq<Axiom>, kind: Kind, E: (Node, Node) -> bool): (nat, nat) -> bool
  {
    (i: nat, j: nat) =>
      || i == j
      || (Has(axioms, kind, i) && Has(axioms, kind, j) && Cross(E, axioms[i].members, axioms[j].members))
  }

  lemma AgreeingLinks(axioms: seq<Axiom>, kind: Kind, E: (Node, Node) -> bool)
    requires IsEquivalence(E) && forall i: nat | Has(axioms, kind, i) :: Satisfies(E, axioms[i].members)
    ensures Links(axioms, kind, Agreeing(axioms, kind, E))
  {
    var R := Agreeing(axioms, kind, E);
    forall i: nat, j: nat, k: nat | R(i, j) && R(j, k)
      ensures R(i, k)
    {
      if i != j && j != k {
        var z :| z in axioms[j].members;
        forall x, y | x in axioms[i].members && y in axioms[k].members
          ensures E(x, y)
        {
          assert E(x, z) && E(z, y);
        }
      }
    }
    forall i: nat, j: nat | Overlap(axioms, kind, i, j)
      ensures R(i, j)
    {
      var z :| z in axioms[i].members * axioms[j].members;
      forall x, y | x in axioms[i].members && y in axioms[j].members
        ensures E(x, y)
      {
        assert Satisfies(E, axioms[i].members) && Satisfies(E, axioms[j].members);
        assert E(x, z) && E(z, y);
      }
    }
  }

  lemma CellSatisfied(axioms: seq<Axiom>, kind: Kind, E: (Node, Node) -> bool, cell: set<nat>)
    requires IsEquivalence(E) && Connected(axioms, kind, cell)
    requires forall i: nat | Has(axioms, kind, i) :: Satisfies(E, axioms[i].members)
    requires forall i | i in cell :: Has(axioms, kind, i)
    ensures Satisfies(E, MembersOf(axioms, cell))
  {
    AgreeingLinks(axioms, kind, E);
    var R := Agreeing(axioms, kind, E);
    assert AllRelated(cell, R);
    forall x, y | x in MembersOf(axioms, cell) && y in MembersOf(axioms, cell)
      ensures E(x, y)
    {
      var i :| i in cell && x in axioms[i].members;
      var j :| j in cell && y in axioms[j].members;
      assert R(i, j) && Satisfies(E, axioms[i].members);
    }
  }

  /** No annotation is lost and none is invented. */
  lemma AnnotationsPreserved(axioms: seq<Axiom>, kind: Kind, grouped: seq<Component>, a: Node)
    requires KindCoalesced(axioms, kind, |axioms|, grouped)
    ensures (exists i: nat :: Has(axioms, kind, i) && a in axioms[i].annotations)
       <==> (exists g :: 0 <= g < |grouped| && a in grouped[g].annotations)
  {
    var cells :| Components(axioms, kind, UpTo(|axioms|), grouped, cells);
    if i: nat :| Has(axioms, kind, i) && a in axioms[i].annotations {
      assert Covered(cells, i);
      var g :| 0 <= g < |cells| && i in cells[g];
      assert Merges(axioms, kind, grouped[g], cells[g]);
      assert a in AnnotationsOf(axioms, cells[g]);
    }
    if g :| 0 <= g < |grouped| && a in grouped[g].annotations {
      assert Merges(axioms, kind, grouped[g], cells[g]);
    }
  }
}
