/** The signature index: for every entity, how many structural roots refer to it, found by walking
    the component arena with an explicit stack and no record of visited components. */
module SignatureIndex {
  import opened Ordering

  // ----- The arena

  datatype Category = Entity | Annotation | Axiom | Swrl | OtherCategory

  datatype FieldRef =
    | Node(id: nat)
    | CanonicalSet(items: seq<FieldRef>)
    | OrderedSequence(items: seq<FieldRef>)
    | Scalar

  datatype Record = Record(category: Category, tag: nat, fields: seq<FieldRef>)

  type Arena = seq<Record>

  /** The identifiers a field refers to, in order. */
  function Nodes(field: FieldRef): seq<nat>
  {
    match field
    case Node(id) => [id]
    case CanonicalSet(items) => AllNodes(items)
    case OrderedSequence(items) => AllNodes(items)
    case Scalar => []
  }

  function AllNodes(fields: seq<FieldRef>): seq<nat>
  {
    if fields == [] then [] else AllNodes(fields[..|fields| - 1]) + Nodes(fields[|fields| - 1])
  }

  predicate Is(a: Arena, id: nat, category: Category)
  {
    id < |a| && a[id].category == category
  }

  function Children(a: Arena, id: nat): seq<nat>
  {
    if id < |a| then AllNodes(a[id].fields) else []
  }

  /** Arenas hold the components they refer to, and `rank` shows that none refers back to itself. */
  ghost predicate IsArena(a: Arena, rank: nat -> nat)
  {
    forall id: nat, child | id < |a| && child in Children(a, id) :: child < |a| && rank(child) < rank(id)
  }

  // ----- Reachability

  /** Entities end a walk, and annotations too unless they are included. */
  predicate Expands(a: Arena, through: bool, id: nat)
  {
    id < |a| && a[id].category != Entity && (through || a[id].category != Annotation)
  }

  ghost predicate IsPath(a: Arena, through: bool, path: seq<nat>)
  {
    forall i | 0 <= i < |path| - 1 :: Expands(a, through, path[i]) && path[i + 1] in Children(a, path[i])
  }

  ghost predicate Connects(a: Arena, through: bool, path: seq<nat>, root: nat, e: nat)
  {
    path != [] && path[0] == root && path[|path| - 1] == e && IsPath(a, through, path)
  }

  /** Some path leads from the root to the entity. */
  ghost predicate Reaches(a: Arena, through: bool, root: nat, e: nat)
  {
    Is(a, e, Entity) && exists path :: Connects(a, through, path, root, e)
  }

  ghost predicate SomeReaches(a: Arena, through: bool, ids: seq<nat>, e: nat)
  {
    exists id | id in ids :: Reaches(a, through, id, e)
  }

  lemma ReachesThroughChild(a: Arena, through: bool, root: nat, e: nat)
    requires Expands(a, through, root)
    ensures Reaches(a, through, root, e) <==> SomeReaches(a, through, Children(a, root), e)
  {
    if Reaches(a, through, root, e) {
      var path :| Connects(a, through, path, root, e);
      assert Connects(a, through, path[1..], path[1], e);
      assert Reaches(a, through, path[1], e);
    }
    if SomeReaches(a, through, Children(a, root), e) {
      var child :| child in Children(a, root) && Reaches(a, through, child, e);
      var path :| Connects(a, through, path, child, e);
      var longer := [root] + path;
      forall i | 0 <= i < |longer| - 1
        ensures Expands(a, through, longer[i]) && longer[i + 1] in Children(a, longer[i])
      {
        if i > 0 {
          assert longer[i] == path[i - 1] && longer[i + 1] == path[i];
        }
      }
      assert Connects(a, through, longer, root, e);
    }
  }

  lemma ReachesAtEnd(a: Arena, through: bool, root: nat, e: nat)
    requires !Expands(a, through, root)
    ensures Reaches(a, through, root, e) <==> root == e && Is(a, e, Entity)
  {
    if Reaches(a, through, root, e) {
      var path :| Connects(a, through, path, root, e);
      assert !Expands(a, through, path[0]);
    }
    assert Connects(a, through, [root], root, root);
  }

  /** Leaving annotations out only loses entities. */
  lemma ReachesMore(a: Arena, root: nat, e: nat)
    requires Reaches(a, false, root, e)
    ensures Reaches(a, true, root, e)
  {
    var path :| Connects(a, false, path, root, e);
    assert Connects(a, true, path, root, e);
  }

  lemma SomeReachesAppend(a: Arena, through: bool, xs: seq<nat>, ys: seq<nat>, e: nat)
    ensures SomeReaches(a, through, xs + ys, e) <==> SomeReaches(a, through, xs, e) || SomeReaches(a, through, ys, e)
  {
  }

  // ----- The work of a walk

  /** The steps it takes to push the nodes of a field, and of all fields of a component. */
  function FieldWork(field: FieldRef): (n: nat)
    ensures n > 0
  {
    match field
    case Node(_) => 1
    case CanonicalSet(items) => 1 + FieldsWork(items)
    case OrderedSequence(items) => 1 + FieldsWork(items)
    case Scalar => 1
  }

  function FieldsWork(fields: seq<FieldRef>): nat
  {
    if fields == [] then 0 else FieldsWork(fields[..|fields| - 1]) + FieldWork(fields[|fields| - 1])
  }

  function VisitWork(a: Arena, through: bool, id: nat): nat
  {
    1 + if Expands(a, through, id) then FieldsWork(a[id].fields) else 0
  }

  /** The steps from a component down; without a record of visits every path counts. */
  ghost function Effort(a: Arena, rank: nat -> nat, through: bool, id: nat): nat
    requires IsArena(a, rank)
    decreases rank(id), 1, 0
  {
    VisitWork(a, through, id) +
    if Expands(a, through, id) then Efforts(a, rank, through, Children(a, id), rank(id)) else 0
  }

  ghost function Efforts(a: Arena, rank: nat -> nat, through: bool, ids: seq<nat>, bound: nat): nat
    requires IsArena(a, rank) && forall id | id in ids :: rank(id) < bound
    decreases bound, 0, |ids|
  {
    if ids == [] then 0
    else Efforts(a, rank, through, ids[..|ids| - 1], bound) + Effort(a, rank, through, ids[|ids| - 1])
  }

  ghost function Load(a: Arena, rank: nat -> nat, through: bool, ids: seq<nat>): nat
    requires IsArena(a, rank)
  {
    if ids == [] then 0 else Load(a, rank, through, ids[..|ids| - 1]) + Effort(a, rank, through, ids[|ids| - 1])
  }

  lemma {:induction false} EffortsAreLoad(a: Arena, rank: nat -> nat, through: bool, ids: seq<nat>, bound: nat)
    requires IsArena(a, rank) && forall id | id in ids :: rank(id) < bound
    ensures Efforts(a, rank, through, ids, bound) == Load(a, rank, through, ids)
    decreases |ids|
  {
    if ids != [] {
      EffortsAreLoad(a, rank, through, ids[..|ids| - 1], bound);
    }
  }

  lemma {:induction false} LoadAppend(a: Arena, rank: nat -> nat, through: bool, xs: seq<nat>, ys: seq<nat>)
    requires IsArena(a, rank)
    ensures Load(a, rank, through, xs + ys) == Load(a, rank, through, xs) + Load(a, rank, through, ys)
    decreases |ys|
  {
    if ys == [] {
      assert xs + ys == xs;
    } else {
      assert (xs + ys)[..|xs + ys| - 1] == xs + ys[..|ys| - 1];
      LoadAppend(a, rank, through, xs, ys[..|ys| - 1]);
    }
  }

  lemma LoadOne(a: Arena, rank: nat -> nat, through: bool, rest: seq<nat>, id: nat)
    requires IsArena(a, rank)
    ensures Load(a, rank, through, rest + [id]) == Load(a, rank, through, rest) + Effort(a, rank, through, id)
  {
    AppendFront(rest, id);
  }

  /** A visit takes its own steps off the load. */
  lemma Lighter(a: Arena, rank: nat -> nat, through: bool, rest: seq<nat>, id: nat)
    requires IsArena(a, rank) && id < |a|
    ensures Load(a, rank, through, rest + [id]) == VisitWork(a, through, id) +
            Load(a, rank, through, rest + if Expands(a, through, id) then Children(a, id) else [])
  {
    LoadOne(a, rank, through, rest, id);
    if Expands(a, through, id) {
      LoadAppend(a, rank, through, rest, Children(a, id));
      EffortsAreLoad(a, rank, through, Children(a, id), rank(id));
    } else {
      assert rest + [] == rest;
    }
  }

  // ----- The walk

  datatype Outcome = Done | Interrupted | Invalid | Limit

  /** Work done so far, and where the guard stops it. */
  datatype Meter = Meter(work: nat, stop: nat -> bool) {
    predicate Spent() { work + 1 >= U64 || stop(work + 1) }
    function Step(): Meter { After(1) }
    function After(steps: nat): Meter { Meter(work + steps, stop) }

    /** Nothing stops the next steps: they can be counted, and the guard lets each of them pass. */
    ghost predicate Clear(steps: nat)
    {
      forall w: nat | work < w <= work + steps :: w < U64 && !stop(w)
    }
  }

  lemma ClearSplit(m: Meter, x: nat, y: nat)
    ensures m.Clear(x + y) <==> m.Clear(x) && m.After(x).Clear(y)
  {
  }

  lemma ClearOne(m: Meter)
    ensures m.Clear(1) <==> !m.Spent()
  {
    if m.Clear(1) {
      assert !m.stop(m.work + 1);
    }
    forall w: nat | m.work < w <= m.work + 1 && !m.Spent()
      ensures w < U64 && !m.stop(w)
    {
      assert w == m.work + 1;
    }
  }

  /** A step of the count that takes that much work: it is done only when nothing stops it, and
      interrupted only when something does. */
  ghost predicate Charged(meter: Meter, after: Meter, outcome: Outcome, work: nat)
  {
    && (outcome == Done ==> meter.Clear(work) && after == meter.After(work))
    && (outcome == Interrupted ==> !meter.Clear(work))
  }

  /** Two steps in a row. */
  lemma ChargedTwice(meter: Meter, middle: Meter, after: Meter, outcome: Outcome, x: nat, y: nat)
    requires Charged(meter, middle, Done, x) && Charged(middle, after, outcome, y)
    ensures Charged(meter, after, outcome, x + y)
  {
    ClearSplit(meter, x, y);
  }

  /** A step that stops the count, whatever was still to come. */
  lemma ChargedEarly(meter: Meter, after: Meter, outcome: Outcome, x: nat, y: nat)
    requires Charged(meter, after, outcome, x) && outcome != Done && x <= y
    ensures Charged(meter, after, outcome, y)
  {
    ClearSplit(meter, x, y - x);
  }

  method PushFieldNodes(field: FieldRef, stack: seq<nat>, meter: Meter)
    returns (outcome: Outcome, pushed: seq<nat>, after: Meter)
    ensures outcome == if meter.Clear(FieldWork(field)) then Done else Interrupted
    ensures outcome == Done ==> pushed == stack + Nodes(field) && after == meter.After(FieldWork(field))
    decreases field, 1
  {
    pushed := stack;
    ClearOne(meter);
    ClearSplit(meter, 1, FieldWork(field) - 1);
    if meter.Spent() {
      return Interrupted, pushed, meter;
    }
    after := meter.Step();
    outcome := Done;
    if field.Node? {
      pushed := pushed + [field.id];
    } else if !field.Scalar? {
      outcome, pushed, after := PushAll(field.items, pushed, after);
    }
  }

  method PushAll(fields: seq<FieldRef>, stack: seq<nat>, meter: Meter)
    returns (outcome: Outcome, pushed: seq<nat>, after: Meter)
    ensures outcome == if meter.Clear(FieldsWork(fields)) then Done else Interrupted
    ensures outcome == Done ==> pushed == stack + AllNodes(fields) && after == meter.After(FieldsWork(fields))
    decreases fields, 0
  {
    pushed, after := stack, meter;
    for i := 0 to |fields|
      invariant pushed == stack + AllNodes(fields[..i])
      invariant Charged(meter, after, Done, FieldsWork(fields[..i]))
    {
      TakeNext(fields, i);
      FieldsWorkPrefix(fields, i + 1);
      ghost var middle := after;
      outcome, pushed, after := PushFieldNodes(fields[i], pushed, after);
      ChargedTwice(meter, middle, after, outcome, FieldsWork(fields[..i]), FieldWork(fields[i]));
      if outcome != Done {
        ChargedEarly(meter, after, outcome, FieldsWork(fields[..i + 1]), FieldsWork(fields));
        return;
      }
    }
    TakeAll(fields);
    outcome := Done;
  }

  lemma {:induction false} FieldsWorkPrefix(fields: seq<FieldRef>, k: nat)
    requires k <= |fields|
    ensures FieldsWork(fields[..k]) <= FieldsWork(fields)
    decreases |fields|
  {
    if k == |fields| {
      TakeAll(fields);
    } else {
      FieldsWorkPrefix(fields[..|fields| - 1], k);
      assert fields[..|fields| - 1][..k] == fields[..k];
    }
  }

  ghost predicate Covers(a: Arena, through: bool, root: nat, found: set<nat>, stack: seq<nat>)
  {
    forall e: nat :: Reaches(a, through, root, e) <==> e in found || SomeReaches(a, through, stack, e)
  }

  lemma CoversExpanded(a: Arena, through: bool, root: nat, found: set<nat>, rest: seq<nat>, id: nat)
    requires Covers(a, through, root, found, rest + [id]) && Expands(a, through, id)
    ensures Covers(a, through, root, found, rest + Children(a, id))
  {
    forall e: nat
      ensures Reaches(a, through, root, e) <==> e in found || SomeReaches(a, through, rest + Children(a, id), e)
    {
      SomeReachesAppend(a, through, rest, [id], e);
      SomeReachesAppend(a, through, rest, Children(a, id), e);
      ReachesThroughChild(a, through, id, e);
      assert SomeReaches(a, through, [id], e) <==> Reaches(a, through, id, e) by { assert id in [id]; }
    }
  }

  lemma CoversEnded(a: Arena, through: bool, root: nat, found: set<nat>, rest: seq<nat>, id: nat)
    requires Covers(a, through, root, found, rest + [id]) && !Expands(a, through, id)
    ensures Covers(a, through, root, if Is(a, id, Entity) then found + {id} else found, rest)
  {
    forall e: nat
      ensures Reaches(a, through, root, e) <==>
              e in (if Is(a, id, Entity) then found + {id} else found) || SomeReaches(a, through, rest, e)
    {
      SomeReachesAppend(a, through, rest, [id], e);
      ReachesAtEnd(a, through, id, e);
      assert SomeReaches(a, through, [id], e) <==> Reaches(a, through, id, e) by { assert id in [id]; }
    }
  }

  ghost predicate InArena(a: Arena, ids: seq<nat>)
  {
    forall id | id in ids :: id < |a|
  }

  lemma ChildrenInArena(a: Arena, rank: nat -> nat, rest: seq<nat>, id: nat)
    requires IsArena(a, rank) && InArena(a, rest + [id])
    ensures InArena(a, rest) && InArena(a, rest + Children(a, id))
  {
    forall x | x in rest
      ensures x < |a|
    {
      assert x in rest + [id];
    }
    assert id in rest + [id];
    forall x | x in rest + Children(a, id)
      ensures x < |a|
    {
      if x !in rest {
        assert x in Children(a, id) && rank(x) < rank(id);
      }
    }
  }

  /** One component off the stack: noted, skipped, or replaced by its children. */
  method Visit(a: Arena, ghost rank: nat -> nat, ghost root: nat, through: bool, id: nat, rest: seq<nat>,
               seen: set<nat>, meter: Meter)
    returns (outcome: Outcome, found: set<nat>, stack: seq<nat>, after: Meter)
    requires IsArena(a, rank) && InArena(a, rest + [id])
    requires Covers(a, through, root, seen, rest + [id])
    ensures Charged(meter, after, outcome, VisitWork(a, through, id)) && (outcome == Done || outcome == Interrupted)
    ensures outcome == Done ==> Covers(a, through, root, found, stack) && InArena(a, stack)
    ensures outcome == Done ==> stack == rest + if Expands(a, through, id) then Children(a, id) else []
  {
    ChildrenInArena(a, rank, rest, id);
    assert id in rest + [id];
    found, stack := seen, rest;
    ClearOne(meter);
    ClearSplit(meter, 1, VisitWork(a, through, id) - 1);
    if meter.Spent() {
      return Interrupted, found, stack, meter;
    }
    after := meter.Step();
    outcome := Done;
    if !through && a[id].category == Annotation {
      CoversEnded(a, through, root, seen, rest, id);
    } else if a[id].category == Entity {
      CoversEnded(a, through, root, seen, rest, id);
      found := found + {id};
    } else {
      CoversExpanded(a, through, root, seen, rest, id);
      outcome, stack, after := PushAll(a[id].fields, rest, after);
    }
  }

  /** The walk ends on every arena, finds exactly the entities the root reaches, and takes exactly
      the steps of all paths from it; it is interrupted exactly when one of them is stopped. */
  method Walk(a: Arena, ghost rank: nat -> nat, root: nat, through: bool, meter: Meter)
    returns (outcome: Outcome, found: set<nat>, after: Meter)
    requires IsArena(a, rank) && root < |a|
    ensures outcome == if meter.Clear(Effort(a, rank, through, root)) then Done else Interrupted
    ensures outcome == Done ==> forall e: nat :: e in found <==> Reaches(a, through, root, e)
    ensures outcome == Done ==> after == meter.After(Effort(a, rank, through, root))
  {
    var stack: seq<nat> := [root];
    found, after := {}, meter;
    assert Covers(a, through, root, found, stack) by { assert root in stack; }
    ghost var total: nat, spent: nat := Effort(a, rank, through, root), 0;
    assert Load(a, rank, through, stack) == total by {
      LoadOne(a, rank, through, [], root);
      assert [] + [root] == stack;
    }
    while stack != []
      invariant InArena(a, stack) && Covers(a, through, root, found, stack)
      invariant Charged(meter, after, Done, spent) && spent + Load(a, rank, through, stack) == total
      decreases Load(a, rank, through, stack)
    {
      ghost var middle, steps := after, VisitWork(a, through, stack[|stack| - 1]);
      outcome, found, stack, after := Pop(a, rank, root, through, stack, found, after);
      ChargedTwice(meter, middle, after, outcome, spent, steps);
      spent := spent + steps;
      if outcome != Done {
        ChargedEarly(meter, after, outcome, spent, total);
        return;
      }
    }
    outcome := Done;
  }

  /** One component off the stack, with the load it takes away. */
  method Pop(a: Arena, ghost rank: nat -> nat, ghost root: nat, through: bool, stack: seq<nat>, seen: set<nat>,
             meter: Meter)
    returns (outcome: Outcome, found: set<nat>, left: seq<nat>, after: Meter)
    requires IsArena(a, rank) && stack != [] && InArena(a, stack) && Covers(a, through, root, seen, stack)
    ensures var steps := VisitWork(a, through, stack[|stack| - 1]);
      && Charged(meter, after, outcome, steps) && (outcome == Done || outcome == Interrupted)
      && steps <= Load(a, rank, through, stack)
      && (outcome == Done ==> steps + Load(a, rank, through, left) == Load(a, rank, through, stack))
    ensures outcome == Done ==> InArena(a, left) && Covers(a, through, root, found, left)
  {
    var id, rest := stack[|stack| - 1], stack[..|stack| - 1];
    assert stack == rest + [id] && id in stack;
    Lighter(a, rank, through, rest, id);
    outcome, found, left, after := Visit(a, rank, root, through, id, rest, seen, meter);
  }

  // ----- Counting

  /** The number of roots that reach an entity. */
  ghost function Count(a: Arena, through: bool, roots: seq<nat>, e: nat): (n: nat)
    ensures n <= |roots|
  {
    if roots == [] then 0
    else Count(a, through, roots[..|roots| - 1], e) + if Reaches(a, through, roots[|roots| - 1], e) then 1 else 0
  }

  ghost predicate Tallies(counts: seq<nat>, a: Arena, through: bool, roots: seq<nat>, entities: seq<nat>)
  {
    |counts| == |entities| && forall i | 0 <= i < |entities| :: counts[i] == Count(a, through, roots, entities[i])
  }

  /** Everything the root reaches is in the entity table. */
  ghost predicate Indexed(a: Arena, through: bool, root: nat, entities: seq<nat>)
  {
    forall e: nat | Reaches(a, through, root, e) :: e in entities
  }

  ghost predicate IsOrdinals(entities: seq<nat>, ordinals: map<nat, nat>)
  {
    && (forall i | 0 <= i < |entities| :: entities[i] in ordinals && ordinals[entities[i]] == i)
    && (forall e | e in ordinals :: ordinals[e] < |entities| && entities[ordinals[e]] == e)
  }

  ghost predicate ValidEntities(a: Arena, entities: seq<nat>)
  {
    Distinct(entities) && forall i | 0 <= i < |entities| :: Is(a, entities[i], Entity)
  }

  method IndexEntities(a: Arena, entities: seq<nat>, meter: Meter)
    returns (outcome: Outcome, ordinals: map<nat, nat>, after: Meter)
    ensures outcome == Done ==> ValidEntities(a, entities) && IsOrdinals(entities, ordinals)
    ensures outcome == Done ==> meter.Clear(|entities|) && after == meter.After(|entities|)
    ensures outcome == Invalid ==> !ValidEntities(a, entities)
    ensures outcome == Interrupted ==> !meter.Clear(|entities|)
    ensures outcome != Limit
  {
    ordinals, after := map[], meter;
    for i := 0 to |entities|
      invariant ValidEntities(a, entities[..i]) && IsOrdinals(entities[..i], ordinals)
      invariant after == meter.After(i) && meter.Clear(i)
    {
      ClearOne(after);
      ClearSplit(meter, i, 1);
      if after.Spent() {
        ClearSplit(meter, i + 1, |entities| - (i + 1));
        return Interrupted, ordinals, after;
      }
      after := after.Step();
      var e := entities[i];
      if !Is(a, e, Entity) || e in ordinals {
        assert e in ordinals ==> entities[..i][ordinals[e]] == entities[ordinals[e]] == entities[i];
        return Invalid, ordinals, after;
      }
      ordinals := ordinals[e := i];
    }
    assert entities[..|entities|] == entities;
    outcome := Done;
  }

  /** Add one to the count of every entity found. */
  method Increment(found: set<nat>, entities: seq<nat>, ordinals: map<nat, nat>, counts: array<nat>)
    returns (outcome: Outcome)
    requires IsOrdinals(entities, ordinals) && counts.Length == |entities|
    modifies counts
    ensures outcome == Done ==> forall e | e in found :: e in entities
    ensures outcome == Done ==>
              forall i | 0 <= i < |entities| :: counts[i] == old(counts[i]) + if entities[i] in found then 1 else 0
    ensures outcome == Invalid ==> exists e :: e in found && e !in entities
    ensures outcome == Limit ==> exists i :: 0 <= i < |entities| && old(counts[i]) + 1 >= U64
    ensures outcome != Interrupted
  {
    var rest := found;
    while rest != {}
      invariant rest <= found
      invariant forall e | e in found - rest :: e in entities
      invariant forall i | 0 <= i < |entities| ::
                  counts[i] == old(counts[i]) + if entities[i] in found - rest then 1 else 0
    {
      var e :| e in rest;
      if e !in ordinals {
        assert e !in entities;
        return Invalid;
      }
      var ordinal := ordinals[e];
      assert entities[ordinal] == e;
      if counts[ordinal] + 1 >= U64 {
        return Limit;
      }
      counts[ordinal] := counts[ordinal] + 1;
      rest := rest - {e};
    }
    outcome := Done;
  }

  lemma TallyStep(was: seq<nat>, now: seq<nat>, a: Arena, through: bool, done: seq<nat>, root: nat, entities: seq<nat>)
    requires Tallies(was, a, through, done, entities) && |now| == |was|
    requires forall i | 0 <= i < |was| :: now[i] == was[i] + if Reaches(a, through, root, entities[i]) then 1 else 0
    ensures Tallies(now, a, through, done + [root], entities)
  {
    assert (done + [root])[..|done|] == done;
  }

  /** Count one more root: afterwards every count is again the number of roots that reach the
      entity, and no count can have overflowed. */
  method IncrementRootEntities(a: Arena, ghost rank: nat -> nat, root: nat, through: bool, entities: seq<nat>,
                               ordinals: map<nat, nat>, counts: array<nat>, ghost done: seq<nat>, meter: Meter)
    returns (outcome: Outcome, after: Meter)
    requires IsArena(a, rank) && root < |a| && IsOrdinals(entities, ordinals)
    requires Tallies(counts[..], a, through, done, entities) && |done| + 1 < U64
    modifies counts
    ensures outcome == Done ==>
              Tallies(counts[..], a, through, done + [root], entities) && Indexed(a, through, root, entities)
    ensures outcome == Invalid ==> !Indexed(a, through, root, entities)
    ensures Charged(meter, after, outcome, Effort(a, rank, through, root))
    ensures outcome != Limit
  {
    ghost var was := counts[..];
    var found;
    outcome, found, after := Walk(a, rank, root, through, meter);
    if outcome != Done {
      return;
    }
    outcome := Increment(found, entities, ordinals, counts);
    if outcome == Done {
      TallyStep(was, counts[..], a, through, done, root, entities);
    }
  }

  // ----- Declarations

  const DECLARATION: nat := 60

  /** The annotation axioms, tags 120 to 123, do not count towards the logical signature. */
  predicate IsAnnotationAxiom(a: Arena, axiom: nat)
  {
    axiom < |a| && 120 <= a[axiom].tag <= 123
  }

  function Plain(a: Arena, axioms: seq<nat>): (plain: seq<nat>)
    ensures |plain| <= |axioms|
  {
    if axioms == [] then []
    else
      var last := axioms[|axioms| - 1];
      Plain(a, axioms[..|axioms| - 1]) + if IsAnnotationAxiom(a, last) then [] else [last]
  }

  lemma PlainStep(a: Arena, axioms: seq<nat>, axiom: nat)
    ensures Plain(a, axioms + [axiom])
         == if IsAnnotationAxiom(a, axiom) then Plain(a, axioms) else Plain(a, axioms) + [axiom]
  {
    assert (axioms + [axiom])[..|axioms|] == axioms;
  }

  /** The entity a declaration declares. */
  function Declared(a: Arena, axiom: nat): Option<nat>
  {
    if axiom < |a| && a[axiom].tag == DECLARATION && a[axiom].fields != [] && a[axiom].fields[0].Node?
       && Is(a, a[axiom].fields[0].id, Entity)
    then Some(a[axiom].fields[0].id)
    else None
  }

  ghost function Declarations(a: Arena, axioms: seq<nat>, e: nat): (n: nat)
    ensures n <= |axioms|
  {
    if axioms == [] then 0
    else Declarations(a, axioms[..|axioms| - 1], e) + if Declared(a, axioms[|axioms| - 1]) == Some(e) then 1 else 0
  }

  ghost predicate DeclarationTallies(counts: seq<nat>, a: Arena, axioms: seq<nat>, entities: seq<nat>)
  {
    |counts| == |entities| && forall i | 0 <= i < |entities| :: counts[i] == Declarations(a, axioms, entities[i])
  }

  lemma {:induction false} FieldNodes(fields: seq<FieldRef>, i: nat, id: nat)
    requires i < |fields| && id in Nodes(fields[i])
    ensures id in AllNodes(fields)
    decreases |fields|
  {
    if i < |fields| - 1 {
      FieldNodes(fields[..|fields| - 1], i, id);
    }
  }

  lemma DeclaredReached(a: Arena, axiom: nat)
    requires Is(a, axiom, Axiom) && Declared(a, axiom).Some?
    ensures Reaches(a, true, axiom, Declared(a, axiom).value)
  {
    var e := Declared(a, axiom).value;
    FieldNodes(a[axiom].fields, 0, e);
    ReachesAtEnd(a, true, e, e);
    ReachesThroughChild(a, true, axiom, e);
  }

  ghost predicate ValidAxiom(a: Arena, axiom: nat, entities: seq<nat>)
  {
    && Is(a, axiom, Axiom)
    && Indexed(a, true, axiom, entities)
    && (a[axiom].tag == DECLARATION ==> Declared(a, axiom).Some?)
  }

  ghost predicate ValidRoot(a: Arena, root: nat, category: Category, entities: seq<nat>)
  {
    Is(a, root, category) && Indexed(a, true, root, entities)
  }

  lemma IndexedLess(a: Arena, root: nat, entities: seq<nat>)
    requires Indexed(a, true, root, entities)
    ensures Indexed(a, false, root, entities)
  {
    forall e: nat | Reaches(a, false, root, e)
      ensures e in entities
    {
      ReachesMore(a, root, e);
    }
  }

  // ----- The three tables of roots

  lemma PrefixNext(before: seq<nat>, roots: seq<nat>, i: nat)
    requires i < |roots|
    ensures before + roots[..i + 1] == before + roots[..i] + [roots[i]] && roots[..i + 1] == roots[..i] + [roots[i]]
  {
  }

  lemma LoadSplit(a: Arena, rank: nat -> nat, through: bool, roots: seq<nat>, i: nat)
    requires IsArena(a, rank) && i < |roots|
    ensures Load(a, rank, through, roots[..i + 1])
         == Load(a, rank, through, roots[..i]) + Effort(a, rank, through, roots[i])
    ensures Load(a, rank, through, roots[..i + 1]) <= Load(a, rank, through, roots)
  {
    TakeNext(roots, i);
    LoadOne(a, rank, through, roots[..i], roots[i]);
    SplitRejoin(roots, i + 1);
    LoadAppend(a, rank, through, roots[..i + 1], roots[i + 1..]);
  }

  /** The work of counting an axiom, of all axioms, and of all extensions. */
  ghost function AxiomWork(a: Arena, rank: nat -> nat, axiom: nat): nat
    requires IsArena(a, rank)
  {
    Effort(a, rank, true, axiom) + if IsAnnotationAxiom(a, axiom) then 0 else Effort(a, rank, false, axiom)
  }

  ghost function AxiomsWork(a: Arena, rank: nat -> nat, axioms: seq<nat>): nat
    requires IsArena(a, rank)
  {
    Load(a, rank, true, axioms) + Load(a, rank, false, Plain(a, axioms))
  }

  ghost function ExtensionsWork(a: Arena, rank: nat -> nat, roots: seq<nat>): nat
    requires IsArena(a, rank)
  {
    Load(a, rank, true, roots) + Load(a, rank, false, roots)
  }

  lemma AxiomsWorkStep(a: Arena, rank: nat -> nat, axioms: seq<nat>, axiom: nat)
    requires IsArena(a, rank)
    ensures AxiomsWork(a, rank, axioms + [axiom]) == AxiomsWork(a, rank, axioms) + AxiomWork(a, rank, axiom)
  {
    PlainStep(a, axioms, axiom);
    LoadOne(a, rank, true, axioms, axiom);
    LoadOne(a, rank, false, Plain(a, axioms), axiom);
  }

  lemma {:induction false} AxiomsWorkPrefix(a: Arena, rank: nat -> nat, axioms: seq<nat>, k: nat)
    requires IsArena(a, rank) && k <= |axioms|
    ensures AxiomsWork(a, rank, axioms[..k]) <= AxiomsWork(a, rank, axioms)
    decreases |axioms| - k
  {
    if k == |axioms| {
      TakeAll(axioms);
    } else {
      TakeNext(axioms, k);
      AxiomsWorkStep(a, rank, axioms[..k], axioms[k]);
      AxiomsWorkPrefix(a, rank, axioms, k + 1);
    }
  }

  /** All of these roots are valid. */
  ghost predicate AllValid(a: Arena, roots: seq<nat>, category: Category, entities: seq<nat>)
  {
    forall r | r in roots :: ValidRoot(a, r, category, entities)
  }

  lemma AllValidNext(a: Arena, roots: seq<nat>, r: nat, category: Category, entities: seq<nat>)
    requires AllValid(a, roots, category, entities) && ValidRoot(a, r, category, entities)
    ensures AllValid(a, roots + [r], category, entities)
  {
  }

  method CountAnnotation(a: Arena, ghost rank: nat -> nat, root: nat, entities: seq<nat>, ordinals: map<nat, nat>,
                         referenced: array<nat>, ghost done: seq<nat>, meter: Meter)
    returns (outcome: Outcome, after: Meter)
    requires IsArena(a, rank) && IsOrdinals(entities, ordinals) && |done| + 1 < U64
    requires Tallies(referenced[..], a, true, done, entities)
    modifies referenced
    ensures outcome == Done ==> Tallies(referenced[..], a, true, done + [root], entities)
    ensures outcome == Done ==> ValidRoot(a, root, Annotation, entities)
    ensures outcome == Invalid ==> !ValidRoot(a, root, Annotation, entities)
    ensures Charged(meter, after, outcome, Effort(a, rank, true, root))
    ensures outcome != Limit
  {
    if !Is(a, root, Annotation) {
      return Invalid, meter;
    }
    outcome, after := IncrementRootEntities(a, rank, root, true, entities, ordinals, referenced, done, meter);
  }

  method CountAnnotations(a: Arena, ghost rank: nat -> nat, roots: seq<nat>, entities: seq<nat>,
                          ordinals: map<nat, nat>, referenced: array<nat>, meter: Meter)
    returns (outcome: Outcome, after: Meter)
    requires IsArena(a, rank) && IsOrdinals(entities, ordinals) && |roots| < U64
    requires Tallies(referenced[..], a, true, [], entities)
    modifies referenced
    ensures outcome == Done ==> Tallies(referenced[..], a, true, roots, entities)
    ensures outcome == Done ==> AllValid(a, roots, Annotation, entities)
    ensures outcome == Invalid ==> !AllValid(a, roots, Annotation, entities)
    ensures Charged(meter, after, outcome, Load(a, rank, true, roots))
    ensures outcome != Limit
  {
    after := meter;
    for i := 0 to |roots|
      invariant Tallies(referenced[..], a, true, roots[..i], entities)
      invariant AllValid(a, roots[..i], Annotation, entities)
      invariant Charged(meter, after, Done, Load(a, rank, true, roots[..i]))
    {
      TakeNext(roots, i);
      LoadSplit(a, rank, true, roots, i);
      ghost var middle := after;
      outcome, after := CountAnnotation(a, rank, roots[i], entities, ordinals, referenced, roots[..i], after);
      ChargedTwice(meter, middle, after, outcome, Load(a, rank, true, roots[..i]), Effort(a, rank, true, roots[i]));
      if outcome != Done {
        ChargedEarly(meter, after, outcome, Load(a, rank, true, roots[..i + 1]), Load(a, rank, true, roots));
        return;
      }
      AllValidNext(a, roots[..i], roots[i], Annotation, entities);
    }
    TakeAll(roots);
    outcome := Done;
  }

  /** A declaration adds one to the count of its entity, which the walk has already indexed. */
  method CountDeclaration(a: Arena, axiom: nat, entities: seq<nat>, ordinals: map<nat, nat>, declared: array<nat>,
                          ghost axioms: seq<nat>)
    returns (outcome: Outcome)
    requires Is(a, axiom, Axiom) && IsOrdinals(entities, ordinals) && Indexed(a, true, axiom, entities)
    requires DeclarationTallies(declared[..], a, axioms, entities) && |axioms| + 1 < U64
    modifies declared
    ensures outcome == Done || outcome == Invalid
    ensures outcome == Done ==>
              DeclarationTallies(declared[..], a, axioms + [axiom], entities) && ValidAxiom(a, axiom, entities)
    ensures outcome == Invalid ==> !ValidAxiom(a, axiom, entities)
  {
    assert (axioms + [axiom])[..|axioms|] == axioms;
    if a[axiom].tag == DECLARATION {
      var fields := a[axiom].fields;
      if fields == [] || !fields[0].Node? || !Is(a, fields[0].id, Entity) {
        return Invalid;
      }
      var e := fields[0].id;
      DeclaredReached(a, axiom);
      assert e in entities;
      var ordinal := ordinals[e];
      assert entities[ordinal] == e;
      declared[ordinal] := declared[ordinal] + 1;
    }
    outcome := Done;
  }

  method CountAxiom(a: Arena, ghost rank: nat -> nat, axiom: nat, entities: seq<nat>, ordinals: map<nat, nat>,
                    referenced: array<nat>, plain: array<nat>, declared: array<nat>,
                    ghost roots: seq<nat>, ghost axioms: seq<nat>, meter: Meter)
    returns (outcome: Outcome, after: Meter)
    requires IsArena(a, rank) && IsOrdinals(entities, ordinals) && |axioms| <= |roots| && |roots| + 1 < U64
    requires referenced != plain && plain != declared && declared != referenced
    requires Tallies(referenced[..], a, true, roots, entities)
    requires Tallies(plain[..], a, false, Plain(a, axioms), entities)
    requires DeclarationTallies(declared[..], a, axioms, entities)
    modifies referenced, plain, declared
    ensures outcome == Done ==> Tallies(referenced[..], a, true, roots + [axiom], entities)
    ensures outcome == Done ==> Tallies(plain[..], a, false, Plain(a, axioms + [axiom]), entities)
    ensures outcome == Done ==> DeclarationTallies(declared[..], a, axioms + [axiom], entities)
    ensures outcome == Done ==> ValidAxiom(a, axiom, entities)
    ensures outcome == Invalid ==> !ValidAxiom(a, axiom, entities)
    ensures Charged(meter, after, outcome, AxiomWork(a, rank, axiom))
    ensures outcome != Limit
  {
    if !Is(a, axiom, Axiom) {
      return Invalid, meter;
    }
    outcome, after := IncrementRootEntities(a, rank, axiom, true, entities, ordinals, referenced, roots, meter);
    if outcome != Done {
      ChargedEarly(meter, after, outcome, Effort(a, rank, true, axiom), AxiomWork(a, rank, axiom));
      return;
    }
    PlainStep(a, axioms, axiom);
    if !(120 <= a[axiom].tag <= 123) {
      IndexedLess(a, axiom, entities);
      ghost var middle := after;
      outcome, after := IncrementRootEntities(a, rank, axiom, false, entities, ordinals, plain, Plain(a, axioms),
                                              after);
      ChargedTwice(meter, middle, after, outcome, Effort(a, rank, true, axiom), Effort(a, rank, false, axiom));
      if outcome != Done {
        return;
      }
    }
    outcome := CountDeclaration(a, axiom, entities, ordinals, declared, axioms);
  }

  method CountAxioms(a: Arena, ghost rank: nat -> nat, axioms: seq<nat>, entities: seq<nat>, ordinals: map<nat, nat>,
                     referenced: array<nat>, plain: array<nat>, declared: array<nat>,
                     ghost before: seq<nat>, meter: Meter)
    returns (outcome: Outcome, after: Meter)
    requires IsArena(a, rank) && IsOrdinals(entities, ordinals) && |before| + |axioms| < U64
    requires referenced != plain && plain != declared && declared != referenced
    requires Tallies(referenced[..], a, true, before, entities)
    requires Tallies(plain[..], a, false, [], entities)
    requires DeclarationTallies(declared[..], a, [], entities)
    modifies referenced, plain, declared
    ensures outcome == Done ==> Tallies(referenced[..], a, true, before + axioms, entities)
    ensures outcome == Done ==> Tallies(plain[..], a, false, Plain(a, axioms), entities)
    ensures outcome == Done ==> DeclarationTallies(declared[..], a, axioms, entities)
    ensures outcome == Done ==> forall axiom | axiom in axioms :: ValidAxiom(a, axiom, entities)
    ensures outcome == Invalid ==> exists axiom :: axiom in axioms && !ValidAxiom(a, axiom, entities)
    ensures Charged(meter, after, outcome, AxiomsWork(a, rank, axioms))
    ensures outcome != Limit
  {
    after := meter;
    assert before + axioms[..0] == before;
    for i := 0 to |axioms|
      invariant Tallies(referenced[..], a, true, before + axioms[..i], entities)
      invariant Tallies(plain[..], a, false, Plain(a, axioms[..i]), entities)
      invariant DeclarationTallies(declared[..], a, axioms[..i], entities)
      invariant forall axiom | axiom in axioms[..i] :: ValidAxiom(a, axiom, entities)
      invariant Charged(meter, after, Done, AxiomsWork(a, rank, axioms[..i]))
    {
      TakeNext(axioms, i);
      AxiomsWorkStep(a, rank, axioms[..i], axioms[i]);
      AxiomsWorkPrefix(a, rank, axioms, i + 1);
      ghost var middle := after;
      PrefixNext(before, axioms, i);
      outcome, after := CountAxiom(a, rank, axioms[i], entities, ordinals, referenced, plain, declared,
                                   before + axioms[..i], axioms[..i], after);
      ChargedTwice(meter, middle, after, outcome, AxiomsWork(a, rank, axioms[..i]), AxiomWork(a, rank, axioms[i]));
      if outcome != Done {
        ChargedEarly(meter, after, outcome, AxiomsWork(a, rank, axioms[..i + 1]), AxiomsWork(a, rank, axioms));
        return;
      }
    }
    assert axioms[..|axioms|] == axioms;
    outcome := Done;
  }

  /** The work of counting one extension. */
  ghost function ExtensionWork(a: Arena, rank: nat -> nat, root: nat): nat
    requires IsArena(a, rank)
  {
    Effort(a, rank, true, root) + Effort(a, rank, false, root)
  }

  lemma ExtensionsWorkSplit(a: Arena, rank: nat -> nat, roots: seq<nat>, i: nat)
    requires IsArena(a, rank) && i < |roots|
    ensures ExtensionsWork(a, rank, roots[..i + 1])
         == ExtensionsWork(a, rank, roots[..i]) + ExtensionWork(a, rank, roots[i])
    ensures ExtensionsWork(a, rank, roots[..i + 1]) <= ExtensionsWork(a, rank, roots)
  {
    LoadSplit(a, rank, true, roots, i);
    LoadSplit(a, rank, false, roots, i);
  }

  method CountExtension(a: Arena, ghost rank: nat -> nat, root: nat, entities: seq<nat>, ordinals: map<nat, nat>,
                        referenced: array<nat>, plain: array<nat>, ghost before: seq<nat>, ghost kept: seq<nat>,
                        meter: Meter)
    returns (outcome: Outcome, after: Meter)
    requires IsArena(a, rank) && IsOrdinals(entities, ordinals) && |kept| <= |before| && |before| + 1 < U64
    requires referenced != plain
    requires Tallies(referenced[..], a, true, before, entities)
    requires Tallies(plain[..], a, false, kept, entities)
    modifies referenced, plain
    ensures outcome == Done ==> Tallies(referenced[..], a, true, before + [root], entities)
    ensures outcome == Done ==> Tallies(plain[..], a, false, kept + [root], entities)
    ensures outcome == Done ==> ValidRoot(a, root, Swrl, entities)
    ensures outcome == Invalid ==> !ValidRoot(a, root, Swrl, entities)
    ensures Charged(meter, after, outcome, ExtensionWork(a, rank, root))
    ensures outcome != Limit
  {
    if !Is(a, root, Swrl) {
      return Invalid, meter;
    }
    outcome, after := IncrementRootEntities(a, rank, root, true, entities, ordinals, referenced, before, meter);
    if outcome != Done {
      ChargedEarly(meter, after, outcome, Effort(a, rank, true, root), ExtensionWork(a, rank, root));
      return;
    }
    IndexedLess(a, root, entities);
    ghost var middle := after;
    outcome, after := IncrementRootEntities(a, rank, root, false, entities, ordinals, plain, kept, after);
    ChargedTwice(meter, middle, after, outcome, Effort(a, rank, true, root), Effort(a, rank, false, root));
  }

  method CountExtensions(a: Arena, ghost rank: nat -> nat, roots: seq<nat>, entities: seq<nat>, ordinals: map<nat, nat>,
                         referenced: array<nat>, plain: array<nat>, ghost before: seq<nat>, ghost kept: seq<nat>,
                         meter: Meter)
    returns (outcome: Outcome, after: Meter)
    requires IsArena(a, rank) && IsOrdinals(entities, ordinals) && |kept| <= |before| && |before| + |roots| < U64
    requires referenced != plain
    requires Tallies(referenced[..], a, true, before, entities)
    requires Tallies(plain[..], a, false, kept, entities)
    modifies referenced, plain
    ensures outcome == Done ==> Tallies(referenced[..], a, true, before + roots, entities)
    ensures outcome == Done ==> Tallies(plain[..], a, false, kept + roots, entities)
    ensures outcome == Done ==> AllValid(a, roots, Swrl, entities)
    ensures outcome == Invalid ==> !AllValid(a, roots, Swrl, entities)
    ensures Charged(meter, after, outcome, ExtensionsWork(a, rank, roots))
    ensures outcome != Limit
  {
    after := meter;
    assert before + roots[..0] == before && kept + roots[..0] == kept;
    for i := 0 to |roots|
      invariant Tallies(referenced[..], a, true, before + roots[..i], entities)
      invariant Tallies(plain[..], a, false, kept + roots[..i], entities)
      invariant AllValid(a, roots[..i], Swrl, entities)
      invariant Charged(meter, after, Done, ExtensionsWork(a, rank, roots[..i]))
    {
      PrefixNext(before, roots, i);
      PrefixNext(kept, roots, i);
      ExtensionsWorkSplit(a, rank, roots, i);
      ghost var middle := after;
      outcome, after := CountExtension(a, rank, roots[i], entities, ordinals, referenced, plain,
                                       before + roots[..i], kept + roots[..i], after);
      ChargedTwice(meter, middle, after, outcome, ExtensionsWork(a, rank, roots[..i]),
                   ExtensionWork(a, rank, roots[i]));
      if outcome != Done {
        ChargedEarly(meter, after, outcome, ExtensionsWork(a, rank, roots[..i + 1]), ExtensionsWork(a, rank, roots));
        return;
      }
      AllValidNext(a, roots[..i], roots[i], Swrl, entities);
    }
    TakeAll(roots);
    outcome := Done;
  }

  // ----- The index

  datatype Tables = Tables(entities: seq<nat>, annotations: seq<nat>, axioms: seq<nat>, extensions: seq<nat>) {
    function Roots(): seq<nat> { annotations + axioms + extensions }
    function PlainRoots(a: Arena): seq<nat> { Plain(a, axioms) + extensions }
  }

  ghost predicate ValidTables(a: Arena, t: Tables)
  {
    ValidEntities(a, t.entities) && ValidRoots(a, t)
  }

  ghost predicate ValidRoots(a: Arena, t: Tables)
  {
    && AllValid(a, t.annotations, Annotation, t.entities)
    && (forall r | r in t.axioms :: ValidAxiom(a, r, t.entities))
    && AllValid(a, t.extensions, Swrl, t.entities)
  }

  /** Every entity of the table is used. */
  ghost predicate AllReached(a: Arena, t: Tables)
  {
    forall e | e in t.entities :: Count(a, true, t.Roots(), e) > 0
  }

  lemma {:induction false} CountAppend(a: Arena, through: bool, xs: seq<nat>, ys: seq<nat>, e: nat)
    ensures Count(a, through, xs + ys, e) == Count(a, through, xs, e) + Count(a, through, ys, e)
    decreases |ys|
  {
    if ys == [] {
      assert xs + ys == xs;
    } else {
      assert (xs + ys)[..|xs + ys| - 1] == xs + ys[..|ys| - 1];
      CountAppend(a, through, xs, ys[..|ys| - 1], e);
    }
  }

  lemma {:induction false} CountLess(a: Arena, roots: seq<nat>, e: nat)
    ensures Count(a, false, roots, e) <= Count(a, true, roots, e)
  {
    if roots != [] {
      CountLess(a, roots[..|roots| - 1], e);
      var last := roots[|roots| - 1];
      if Reaches(a, false, last, e) {
        ReachesMore(a, last, e);
      }
    }
  }

  lemma {:induction false} CountPlain(a: Arena, axioms: seq<nat>, e: nat)
    ensures Count(a, true, Plain(a, axioms), e) <= Count(a, true, axioms, e)
  {
    if axioms != [] {
      var init, last := axioms[..|axioms| - 1], axioms[|axioms| - 1];
      CountPlain(a, init, e);
      assert init + [last] == axioms;
      PlainStep(a, init, last);
      assert (Plain(a, init) + [last])[..|Plain(a, init)|] == Plain(a, init);
    }
  }

  lemma {:induction false} DeclarationsReached(a: Arena, axioms: seq<nat>, e: nat)
    requires forall axiom | axiom in axioms :: Is(a, axiom, Axiom)
    ensures Declarations(a, axioms, e) <= Count(a, true, axioms, e)
  {
    if axioms != [] {
      var last := axioms[|axioms| - 1];
      DeclarationsReached(a, axioms[..|axioms| - 1], e);
      if Declared(a, last) == Some(e) {
        DeclaredReached(a, last);
      }
    }
  }

  /** On valid tables the logical and the declaration counts cannot exceed the references. */
  lemma CountsBounded(a: Arena, t: Tables, e: nat)
    requires ValidTables(a, t)
    ensures Count(a, false, t.PlainRoots(a), e) <= Count(a, true, t.Roots(), e)
    ensures Declarations(a, t.axioms, e) <= Count(a, true, t.Roots(), e)
  {
    CountAppend(a, true, t.annotations, t.axioms, e);
    CountAppend(a, true, t.annotations + t.axioms, t.extensions, e);
    CountLess(a, t.PlainRoots(a), e);
    CountAppend(a, true, Plain(a, t.axioms), t.extensions, e);
    CountPlain(a, t.axioms, e);
    DeclarationsReached(a, t.axioms, e);
  }

  function Sum(counts: seq<nat>): nat
  {
    if counts == [] then 0 else Sum(counts[..|counts| - 1]) + counts[|counts| - 1]
  }

  lemma {:induction false} SumPrefix(counts: seq<nat>, k: nat)
    requires k <= |counts|
    ensures Sum(counts[..k]) <= Sum(counts)
    decreases |counts|
  {
    if k == |counts| {
      assert counts[..k] == counts;
    } else {
      SumPrefix(counts[..|counts| - 1], k);
      assert counts[..|counts| - 1][..k] == counts[..k];
    }
  }

  method SumCounts(counts: seq<nat>) returns (sum: Option<nat>)
    ensures sum == if Sum(counts) < U64 then Some(Sum(counts)) else None
  {
    var total := 0;
    for i := 0 to |counts|
      invariant total == Sum(counts[..i]) < U64
    {
      assert counts[..i + 1][..i] == counts[..i];
      SumPrefix(counts, i + 1);
      if total + counts[i] >= U64 {
        return None;
      }
      total := total + counts[i];
    }
    assert counts[..|counts|] == counts;
    return Some(total);
  }

  // ----- Links counted from either side

  ghost function Reached(a: Arena, through: bool, root: nat, entities: seq<nat>): set<nat>
  {
    set e | e in entities && Reaches(a, through, root, e)
  }

  ghost function ReachedLinks(a: Arena, through: bool, roots: seq<nat>, entities: seq<nat>): nat
  {
    if roots == [] then 0
    else ReachedLinks(a, through, roots[..|roots| - 1], entities) + |Reached(a, through, roots[|roots| - 1], entities)|
  }

  lemma {:induction false} SumZero(counts: seq<nat>)
    requires forall i | 0 <= i < |counts| :: counts[i] == 0
    ensures Sum(counts) == 0
  {
    if counts != [] {
      SumZero(counts[..|counts| - 1]);
    }
  }

  lemma {:induction false} SumMonotone(less: seq<nat>, more: seq<nat>)
    requires |less| == |more| && forall i | 0 <= i < |less| :: less[i] <= more[i]
    ensures Sum(less) <= Sum(more)
  {
    if less != [] {
      SumMonotone(less[..|less| - 1], more[..|more| - 1]);
    }
  }

  lemma ReachedStep(a: Arena, through: bool, root: nat, entities: seq<nat>)
    requires Distinct(entities) && entities != []
    ensures var init, last := entities[..|entities| - 1], entities[|entities| - 1];
            |Reached(a, through, root, entities)| ==
            |Reached(a, through, root, init)| + if Reaches(a, through, root, last) then 1 else 0
  {
    var init, last := entities[..|entities| - 1], entities[|entities| - 1];
    assert last !in init;
    var now, was := Reached(a, through, root, entities), Reached(a, through, root, init);
    if Reaches(a, through, root, last) {
      assert now == was + {last};
    } else {
      assert now == was;
    }
  }

  lemma {:induction false} SumOneRoot(was: seq<nat>, now: seq<nat>, a: Arena, through: bool, root: nat,
                                      entities: seq<nat>)
    requires Distinct(entities) && |was| == |now| == |entities|
    requires forall i | 0 <= i < |was| :: now[i] == was[i] + if Reaches(a, through, root, entities[i]) then 1 else 0
    ensures Sum(now) == Sum(was) + |Reached(a, through, root, entities)|
  {
    if entities != [] {
      var n := |entities| - 1;
      var init, last := entities[..n], entities[n];
      SumOneRoot(was[..n], now[..n], a, through, root, init);
      ReachedStep(a, through, root, entities);
    }
  }

  /** The links counted per entity are the links counted per root. */
  lemma {:induction false} LinksConserved(counts: seq<nat>, a: Arena, through: bool, roots: seq<nat>,
                                          entities: seq<nat>)
    requires Distinct(entities) && Tallies(counts, a, through, roots, entities)
    ensures Sum(counts) == ReachedLinks(a, through, roots, entities)
    decreases |roots|
  {
    if roots == [] {
      SumZero(counts);
    } else {
      var init, last := roots[..|roots| - 1], roots[|roots| - 1];
      var was := seq(|entities|, i requires 0 <= i < |entities| => Count(a, through, init, entities[i]));
      LinksConserved(was, a, through, init, entities);
      SumOneRoot(was, counts, a, through, last, entities);
    }
  }

  // ----- Building the index

  datatype Built =
    | Index(referenced: seq<nat>, plain: seq<nat>, declared: seq<nat>,
            referencedLinks: nat, plainLinks: nat, declaredLinks: nat)
    | Failed(outcome: Outcome)

  ghost predicate IsIndex(a: Arena, t: Tables, built: Built)
    requires built.Index?
  {
    && Tallies(built.referenced, a, true, t.Roots(), t.entities)
    && Tallies(built.plain, a, false, t.PlainRoots(a), t.entities)
    && DeclarationTallies(built.declared, a, t.axioms, t.entities)
    && built.referencedLinks == Sum(built.referenced)
    && built.plainLinks == Sum(built.plain)
    && built.declaredLinks == Sum(built.declared)
  }

  ghost function RootsWork(a: Arena, rank: nat -> nat, t: Tables): nat
    requires IsArena(a, rank)
  {
    Load(a, rank, true, t.annotations) + AxiomsWork(a, rank, t.axioms) + ExtensionsWork(a, rank, t.extensions)
  }

  /** The work of counting all tables. */
  ghost function TotalWork(a: Arena, rank: nat -> nat, t: Tables): nat
    requires IsArena(a, rank)
  {
    |t.entities| + RootsWork(a, rank, t)
  }

  /** The three tables of roots, one after the other. */
  method CountRoots(a: Arena, ghost rank: nat -> nat, t: Tables, ordinals: map<nat, nat>,
                    referenced: array<nat>, plain: array<nat>, declared: array<nat>, meter: Meter)
    returns (outcome: Outcome, after: Meter)
    requires IsArena(a, rank) && |t.Roots()| < U64 && IsOrdinals(t.entities, ordinals)
    requires referenced != plain && plain != declared && declared != referenced
    requires Tallies(referenced[..], a, true, [], t.entities)
    requires Tallies(plain[..], a, false, [], t.entities)
    requires DeclarationTallies(declared[..], a, [], t.entities)
    modifies referenced, plain, declared
    ensures outcome == Done ==> ValidRoots(a, t)
    ensures outcome == Done ==> Tallies(referenced[..], a, true, t.Roots(), t.entities)
    ensures outcome == Done ==> Tallies(plain[..], a, false, t.PlainRoots(a), t.entities)
    ensures outcome == Done ==> DeclarationTallies(declared[..], a, t.axioms, t.entities)
    ensures outcome == Invalid ==> !ValidRoots(a, t)
    ensures outcome != Limit
    ensures Charged(meter, after, outcome, RootsWork(a, rank, t))
  {
    ghost var x, y := Load(a, rank, true, t.annotations), AxiomsWork(a, rank, t.axioms);
    ghost var z := ExtensionsWork(a, rank, t.extensions);
    outcome, after := CountAnnotations(a, rank, t.annotations, t.entities, ordinals, referenced, meter);
    if outcome != Done {
      ChargedEarly(meter, after, outcome, x, x + y + z);
      return;
    }
    ghost var first := after;
    outcome, after := CountAxioms(a, rank, t.axioms, t.entities, ordinals, referenced, plain, declared, t.annotations,
                                  after);
    ChargedTwice(meter, first, after, outcome, x, y);
    if outcome != Done {
      ChargedEarly(meter, after, outcome, x + y, x + y + z);
      return;
    }
    ghost var second := after;
    outcome, after := CountExtensions(a, rank, t.extensions, t.entities, ordinals, referenced, plain,
                                      t.annotations + t.axioms, Plain(a, t.axioms), after);
    ChargedTwice(meter, second, after, outcome, x + y, z);
  }

  /** Fresh counts are the tallies of no roots. */
  lemma FreshTallies(counts: seq<nat>, a: Arena, entities: seq<nat>)
    requires |counts| == |entities| && forall i | 0 <= i < |counts| :: counts[i] == 0
    ensures Tallies(counts, a, true, [], entities) && Tallies(counts, a, false, [], entities)
    ensures DeclarationTallies(counts, a, [], entities)
  {
  }

  method CountInto(a: Arena, ghost rank: nat -> nat, t: Tables, ordinals: map<nat, nat>, meter: Meter)
    returns (outcome: Outcome, after: Meter, referenced: seq<nat>, plain: seq<nat>, declared: seq<nat>)
    requires IsArena(a, rank) && |t.Roots()| < U64 && IsOrdinals(t.entities, ordinals)
    ensures outcome == Done ==> ValidRoots(a, t)
    ensures outcome == Done ==> Tallies(referenced, a, true, t.Roots(), t.entities)
    ensures outcome == Done ==> Tallies(plain, a, false, t.PlainRoots(a), t.entities)
    ensures outcome == Done ==> DeclarationTallies(declared, a, t.axioms, t.entities)
    ensures outcome == Invalid ==> !ValidRoots(a, t)
    ensures outcome != Limit
    ensures Charged(meter, after, outcome, RootsWork(a, rank, t))
  {
    var n := |t.entities|;
    var all, some, declarations := new nat[n](_ => 0), new nat[n](_ => 0), new nat[n](_ => 0);
    FreshTallies(all[..], a, t.entities);
    FreshTallies(some[..], a, t.entities);
    FreshTallies(declarations[..], a, t.entities);
    outcome, after := CountRoots(a, rank, t, ordinals, all, some, declarations, meter);
    referenced, plain, declared := all[..], some[..], declarations[..];
  }

  /** Nothing stops the count: none of its steps, and not the check that is forced at its end. */
  ghost predicate Unstopped(a: Arena, rank: nat -> nat, t: Tables, meter: Meter, closing: bool)
    requires IsArena(a, rank)
  {
    meter.Clear(TotalWork(a, rank, t)) && !closing
  }

  method CountTables(a: Arena, ghost rank: nat -> nat, t: Tables, meter: Meter, closing: bool)
    returns (outcome: Outcome, referenced: seq<nat>, plain: seq<nat>, declared: seq<nat>)
    requires IsArena(a, rank) && |t.Roots()| < U64
    ensures outcome == Done ==> ValidTables(a, t) && Unstopped(a, rank, t, meter, closing)
    ensures outcome == Done ==> Tallies(referenced, a, true, t.Roots(), t.entities)
    ensures outcome == Done ==> Tallies(plain, a, false, t.PlainRoots(a), t.entities)
    ensures outcome == Done ==> DeclarationTallies(declared, a, t.axioms, t.entities)
    ensures outcome == Invalid ==> !ValidTables(a, t)
    ensures outcome == Interrupted ==> !Unstopped(a, rank, t, meter, closing)
    ensures outcome != Limit
  {
    referenced, plain, declared := [], [], [];
    var ordinals, after;
    ghost var n, total := |t.entities|, TotalWork(a, rank, t);
    outcome, ordinals, after := IndexEntities(a, t.entities, meter);
    if outcome != Done {
      ChargedEarly(meter, after, outcome, n, total);
      return;
    }
    ghost var middle := after;
    outcome, after, referenced, plain, declared := CountInto(a, rank, t, ordinals, after);
    ChargedTwice(meter, middle, after, outcome, n, total - n);
    if outcome == Done && closing {
      outcome := Interrupted;
    }
  }

  predicate Diverges(referenced: seq<nat>, plain: seq<nat>, declared: seq<nat>)
    requires |plain| == |referenced| == |declared|
  {
    || (exists i :: 0 <= i < |referenced| && referenced[i] == 0)
    || (exists i :: 0 <= i < |referenced| && plain[i] > referenced[i])
    || (exists i :: 0 <= i < |referenced| && declared[i] > referenced[i])
  }

  lemma DivergesOnlyUnused(a: Arena, t: Tables, referenced: seq<nat>, plain: seq<nat>, declared: seq<nat>)
    requires ValidTables(a, t)
    requires Tallies(referenced, a, true, t.Roots(), t.entities)
    requires Tallies(plain, a, false, t.PlainRoots(a), t.entities)
    requires DeclarationTallies(declared, a, t.axioms, t.entities)
    ensures Diverges(referenced, plain, declared) <==> !AllReached(a, t)
  {
    forall i | 0 <= i < |t.entities|
      ensures plain[i] <= referenced[i] && declared[i] <= referenced[i]
    {
      CountsBounded(a, t, t.entities[i]);
    }
    forall i | 0 <= i < |t.entities| && referenced[i] == 0
      ensures !AllReached(a, t)
    {
      assert t.entities[i] in t.entities;
    }
  }

  /** The tables are valid, every entity is used, and nothing has too many rows or links. */
  ghost predicate Indexable(a: Arena, t: Tables, maxRows: nat)
  {
    && ValidTables(a, t) && AllReached(a, t) && |t.entities| <= maxRows
    && |t.Roots()| < U64 && ReachedLinks(a, true, t.Roots(), t.entities) < U64
  }

  /** The index is built exactly from such tables under a guard that does not stop it, and counts,
      for every entity, the roots that reach it. It is refused as invalid only when the tables are
      wrong or list an unused entity, never because of its own counts. `stop` tells where
      the guard stops a step, `opening` and `closing` whether the checks forced before and after do. */
  method Build(a: Arena, ghost rank: nat -> nat, t: Tables, maxRows: nat, stop: nat -> bool, opening: bool,
               closing: bool)
    returns (built: Built)
    requires IsArena(a, rank)
    ensures built.Index? <==> Indexable(a, t, maxRows) && !opening && Unstopped(a, rank, t, Meter(0, stop), closing)
    ensures built.Index? ==> IsIndex(a, t, built)
    ensures built == Failed(Invalid) ==> !ValidTables(a, t) || !AllReached(a, t)
    ensures built == Failed(Interrupted) ==> opening || !Unstopped(a, rank, t, Meter(0, stop), closing)
    ensures built == Failed(Limit) ==>
              |t.Roots()| >= U64 || |t.entities| > maxRows || ReachedLinks(a, true, t.Roots(), t.entities) >= U64
    ensures built != Failed(Done)
  {
    if |t.annotations| + |t.axioms| + |t.extensions| >= U64 {
      return Failed(Limit);
    }
    if |t.entities| > maxRows {
      return Failed(Limit);
    }
    if opening {
      return Failed(Interrupted);
    }
    var outcome, referenced, plain, declared := CountTables(a, rank, t, Meter(0, stop), closing);
    if outcome != Done {
      return Failed(outcome);
    }
    DivergesOnlyUnused(a, t, referenced, plain, declared);
    if Diverges(referenced, plain, declared) {
      return Failed(Invalid);
    }
    LinksConserved(referenced, a, true, t.Roots(), t.entities);
    SumMonotone(plain, referenced);
    SumMonotone(declared, referenced);
    var all := SumCounts(referenced);
    var some := SumCounts(plain);
    var declarations := SumCounts(declared);
    if all.None? || some.None? || declarations.None? {
      return Failed(Limit);
    }
    return Index(referenced, plain, declared, all.value, some.value, declarations.value);
  }
}
