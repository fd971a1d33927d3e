/** What the counts of the signature index mean, told by the fields and categories of components
    alone: which components mention which, and along what chains an entity is met. */
module SignatureMeaning {
  import opened Ordering
  import opened SignatureIndex

  // ----- Which components a component mentions

  /** The identifier occurs in the field, in a collection of it, or in one nested in that. */
  ghost predicate Occurs(field: FieldRef, id: nat)
  {
    match field
    case Node(x) => x == id
    case CanonicalSet(items) => exists i :: 0 <= i < |items| && Occurs(items[i], id)
    case OrderedSequence(items) => exists i :: 0 <= i < |items| && Occurs(items[i], id)
    case Scalar => false
  }

  ghost predicate Mentions(a: Arena, id: nat, child: nat)
  {
    id < |a| && exists i :: 0 <= i < |a[id].fields| && Occurs(a[id].fields[i], child)
  }

  lemma {:induction false} AllNodesHas(fields: seq<FieldRef>, id: nat)
    ensures id in AllNodes(fields) <==> exists i :: 0 <= i < |fields| && id in Nodes(fields[i])
    decreases |fields|
  {
    if fields != [] {
      var front, last := fields[..|fields| - 1], fields[|fields| - 1];
      AllNodesHas(front, id);
      if i :| 0 <= i < |front| && id in Nodes(front[i]) {
        assert id in Nodes(fields[i]);
      }
      if i :| 0 <= i < |fields| && id in Nodes(fields[i]) {
        assert i < |front| ==> id in Nodes(front[i]);
      }
    }
  }

  lemma {:induction false} NodesOccur(field: FieldRef, id: nat)
    ensures id in Nodes(field) <==> Occurs(field, id)
    decreases field
  {
    if field.CanonicalSet? || field.OrderedSequence? {
      AllNodesHas(field.items, id);
      forall i | 0 <= i < |field.items|
        ensures id in Nodes(field.items[i]) <==> Occurs(field.items[i], id)
      {
        NodesOccur(field.items[i], id);
      }
    }
  }

  /** The children a walk goes on to are the components that are mentioned. */
  lemma ChildrenMentioned(a: Arena, id: nat, child: nat)
    ensures child in Children(a, id) <==> Mentions(a, id, child)
  {
    if id < |a| {
      AllNodesHas(a[id].fields, child);
      forall i | 0 <= i < |a[id].fields|
        ensures child in Nodes(a[id].fields[i]) <==> Occurs(a[id].fields[i], child)
      {
        NodesOccur(a[id].fields[i], child);
      }
    }
  }

  // ----- Chains

  /** Each component of the chain mentions the next; the last is an entity, and none before it. */
  ghost predicate IsChain(a: Arena, chain: seq<nat>, root: nat, e: nat)
  {
    && chain != [] && chain[0] == root && chain[|chain| - 1] == e
    && Is(a, e, Entity)
    && forall i | 0 <= i < |chain| - 1 :: !Is(a, chain[i], Entity) && Mentions(a, chain[i], chain[i + 1])
  }

  ghost predicate AvoidsAnnotations(a: Arena, chain: seq<nat>)
  {
    forall i | 0 <= i < |chain| :: !Is(a, chain[i], Annotation)
  }

  ghost predicate Meets(a: Arena, root: nat, e: nat)
  {
    exists chain :: IsChain(a, chain, root, e)
  }

  /** The entity is met without passing an annotation. */
  ghost predicate MeetsPlainly(a: Arena, root: nat, e: nat)
  {
    exists chain :: IsChain(a, chain, root, e) && AvoidsAnnotations(a, chain)
  }

  lemma PathIsChain(a: Arena, through: bool, path: seq<nat>, root: nat, e: nat)
    ensures Is(a, e, Entity) && Connects(a, through, path, root, e)
       <==> IsChain(a, path, root, e) && (through || AvoidsAnnotations(a, path))
  {
    if Is(a, e, Entity) && Connects(a, through, path, root, e) {
      forall i | 0 <= i < |path| - 1
        ensures !Is(a, path[i], Entity) && Mentions(a, path[i], path[i + 1])
        ensures through || !Is(a, path[i], Annotation)
      {
        assert Expands(a, through, path[i]);
        ChildrenMentioned(a, path[i], path[i + 1]);
      }
    }
    if IsChain(a, path, root, e) && (through || AvoidsAnnotations(a, path)) {
      forall i | 0 <= i < |path| - 1
        ensures Expands(a, through, path[i]) && path[i + 1] in Children(a, path[i])
      {
        assert Mentions(a, path[i], path[i + 1]);
        ChildrenMentioned(a, path[i], path[i + 1]);
      }
    }
  }

  /** With annotations included, a walk finds the entities that some chain meets. */
  lemma ReachesMeets(a: Arena, root: nat, e: nat)
    ensures Reaches(a, true, root, e) <==> Meets(a, root, e)
  {
    if Reaches(a, true, root, e) {
      var path :| Connects(a, true, path, root, e);
      PathIsChain(a, true, path, root, e);
    }
    if chain :| IsChain(a, chain, root, e) {
      PathIsChain(a, true, chain, root, e);
    }
  }

  /** With annotations left out, those that some chain without an annotation meets. */
  lemma ReachesPlainly(a: Arena, root: nat, e: nat)
    ensures Reaches(a, false, root, e) <==> MeetsPlainly(a, root, e)
  {
    if Reaches(a, false, root, e) {
      var path :| Connects(a, false, path, root, e);
      PathIsChain(a, false, path, root, e);
    }
    if chain :| IsChain(a, chain, root, e) && AvoidsAnnotations(a, chain) {
      PathIsChain(a, false, chain, root, e);
    }
  }

  // ----- Counts as numbers of rows

  ghost function Rows(n: nat, p: nat -> bool): set<nat>
  {
    set j: nat | j < n && p(j)
  }

  lemma RowsNext(n: nat, p: nat -> bool)
    ensures |Rows(n + 1, p)| == |Rows(n, p)| + if p(n) then 1 else 0
  {
    assert Rows(n + 1, p) == if p(n) then Rows(n, p) + {n} else Rows(n, p);
  }

  lemma {:induction false} CountRows(a: Arena, through: bool, roots: seq<nat>, e: nat, p: nat -> bool, k: nat)
    requires k <= |roots| && forall j | 0 <= j < |roots| :: p(j) <==> Reaches(a, through, roots[j], e)
    ensures Count(a, through, roots[..k], e) == |Rows(k, p)|
    decreases k
  {
    if k == 0 {
      assert Rows(0, p) == {};
    } else {
      CountRows(a, through, roots, e, p, k - 1);
      RowsNext(k - 1, p);
      assert roots[..k][..k - 1] == roots[..k - 1];
    }
  }

  lemma CountNext(a: Arena, through: bool, roots: seq<nat>, root: nat, e: nat)
    ensures Count(a, through, roots + [root], e)
         == Count(a, through, roots, e) + if Reaches(a, through, root, e) then 1 else 0
  {
    AppendFront(roots, root);
  }

  lemma PlainNext(a: Arena, axioms: seq<nat>, axiom: nat, e: nat)
    ensures Count(a, false, Plain(a, axioms + [axiom]), e)
         == Count(a, false, Plain(a, axioms), e) + if !Annotates(a, axiom) && Reaches(a, false, axiom, e) then 1 else 0
  {
    PlainStep(a, axioms, axiom);
    CountNext(a, false, Plain(a, axioms), axiom, e);
  }

  lemma {:induction false} PlainRows(a: Arena, axioms: seq<nat>, e: nat, p: nat -> bool, k: nat)
    requires k <= |axioms|
    requires forall j | 0 <= j < |axioms| :: p(j) <==> !Annotates(a, axioms[j]) && Reaches(a, false, axioms[j], e)
    ensures Count(a, false, Plain(a, axioms[..k]), e) == |Rows(k, p)|
    decreases k
  {
    if k == 0 {
      assert Rows(0, p) == {};
    } else {
      PlainRows(a, axioms, e, p, k - 1);
      RowsNext(k - 1, p);
      TakeNext(axioms, k - 1);
      PlainNext(a, axioms[..k - 1], axioms[k - 1], e);
    }
  }

  /** The axiom is a declaration whose first field is the entity. */
  ghost predicate Declares(a: Arena, axiom: nat, e: nat)
  {
    && axiom < |a| && a[axiom].tag == 60
    && a[axiom].fields != [] && a[axiom].fields[0] == Node(e) && Is(a, e, Entity)
  }

  lemma {:induction false} DeclarationRows(a: Arena, axioms: seq<nat>, e: nat, p: nat -> bool, k: nat)
    requires k <= |axioms| && forall j | 0 <= j < |axioms| :: p(j) <==> Declares(a, axioms[j], e)
    ensures Declarations(a, axioms[..k], e) == |Rows(k, p)|
    decreases k
  {
    if k == 0 {
      assert Rows(0, p) == {};
    } else {
      DeclarationRows(a, axioms, e, p, k - 1);
      RowsNext(k - 1, p);
      assert axioms[..k][..k - 1] == axioms[..k - 1];
    }
  }

  // ----- The index

  /** The rows of a table whose root meets the entity. */
  ghost function Meeting(a: Arena, roots: seq<nat>, e: nat): set<nat>
  {
    set j: nat | j < |roots| && Meets(a, roots[j], e)
  }

  /** Annotation axioms have the tags 120 to 123. */
  predicate Annotates(a: Arena, axiom: nat)
  {
    axiom < |a| && 120 <= a[axiom].tag <= 123
  }

  /** The axioms that meet it plainly and are not annotation axioms. */
  ghost function AxiomsMeeting(a: Arena, axioms: seq<nat>, e: nat): set<nat>
  {
    set j: nat | j < |axioms| && !Annotates(a, axioms[j]) && MeetsPlainly(a, axioms[j], e)
  }

  ghost function RulesMeeting(a: Arena, rules: seq<nat>, e: nat): set<nat>
  {
    set j: nat | j < |rules| && MeetsPlainly(a, rules[j], e)
  }

  ghost function Declaring(a: Arena, axioms: seq<nat>, e: nat): set<nat>
  {
    set j: nat | j < |axioms| && Declares(a, axioms[j], e)
  }

  lemma CountMeeting(a: Arena, roots: seq<nat>, e: nat)
    ensures Count(a, true, roots, e) == |Meeting(a, roots, e)|
  {
    var p := (j: nat) => j < |roots| && Meets(a, roots[j], e);
    forall j | 0 <= j < |roots|
      ensures p(j) <==> Reaches(a, true, roots[j], e)
    {
      ReachesMeets(a, roots[j], e);
    }
    CountRows(a, true, roots, e, p, |roots|);
    TakeAll(roots);
    assert Rows(|roots|, p) == Meeting(a, roots, e);
  }

  lemma CountPlainly(a: Arena, axioms: seq<nat>, rules: seq<nat>, e: nat)
    ensures Count(a, false, Plain(a, axioms) + rules, e)
         == |AxiomsMeeting(a, axioms, e)| + |RulesMeeting(a, rules, e)|
  {
    CountAxiomsPlainly(a, axioms, e);
    CountRulesPlainly(a, rules, e);
    CountAppend(a, false, Plain(a, axioms), rules, e);
  }

  lemma CountAxiomsPlainly(a: Arena, axioms: seq<nat>, e: nat)
    ensures Count(a, false, Plain(a, axioms), e) == |AxiomsMeeting(a, axioms, e)|
  {
    var p := (j: nat) => j < |axioms| && !Annotates(a, axioms[j]) && MeetsPlainly(a, axioms[j], e);
    forall j | 0 <= j < |axioms|
      ensures p(j) <==> !Annotates(a, axioms[j]) && Reaches(a, false, axioms[j], e)
    {
      ReachesPlainly(a, axioms[j], e);
    }
    PlainRows(a, axioms, e, p, |axioms|);
    TakeAll(axioms);
    assert Rows(|axioms|, p) == AxiomsMeeting(a, axioms, e);
  }

  lemma CountRulesPlainly(a: Arena, rules: seq<nat>, e: nat)
    ensures Count(a, false, rules, e) == |RulesMeeting(a, rules, e)|
  {
    var p := (j: nat) => j < |rules| && MeetsPlainly(a, rules[j], e);
    forall j | 0 <= j < |rules|
      ensures p(j) <==> Reaches(a, false, rules[j], e)
    {
      ReachesPlainly(a, rules[j], e);
    }
    CountRows(a, false, rules, e, p, |rules|);
    TakeAll(rules);
    assert Rows(|rules|, p) == RulesMeeting(a, rules, e);
  }

  lemma CountDeclaring(a: Arena, axioms: seq<nat>, e: nat)
    ensures Declarations(a, axioms, e) == |Declaring(a, axioms, e)|
  {
    var p := (j: nat) => j < |axioms| && Declares(a, axioms[j], e);
    DeclarationRows(a, axioms, e, p, |axioms|);
    TakeAll(axioms);
    assert Rows(|axioms|, p) == Declaring(a, axioms, e);
  }

  /** Of a finished index: the references of an entity are the rows of all three tables whose root
      meets it; its plain count are the axioms that are no annotation axioms, and the rules, that
      meet it without passing an annotation; its declarations are the axioms of tag 60 that name
      it first. */
  lemma IndexCounts(a: Arena, t: Tables, built: Built, i: nat)
    requires built.Index? && IsIndex(a, t, built) && ValidTables(a, t) && i < |t.entities|
    ensures var e := t.entities[i];
      && built.referenced[i]
         == |Meeting(a, t.annotations, e)| + |Meeting(a, t.axioms, e)| + |Meeting(a, t.extensions, e)|
      && built.plain[i] == |AxiomsMeeting(a, t.axioms, e)| + |RulesMeeting(a, t.extensions, e)|
      && built.declared[i] == |Declaring(a, t.axioms, e)|
  {
    var e := t.entities[i];
    CountAppend(a, true, t.annotations + t.axioms, t.extensions, e);
    CountAppend(a, true, t.annotations, t.axioms, e);
    CountMeeting(a, t.annotations, e);
    CountMeeting(a, t.axioms, e);
    CountMeeting(a, t.extensions, e);
    CountPlainly(a, t.axioms, t.extensions, e);
    CountDeclaring(a, t.axioms, e);
  }

  /** An entity that is met only below annotations, or by annotation axioms, has a plain count of
      zero and is referenced all the same. */
  lemma OnlyAnnotated(a: Arena, t: Tables, built: Built, i: nat)
    requires built.Index? && IsIndex(a, t, built) && ValidTables(a, t) && AllReached(a, t) && i < |t.entities|
    requires forall axiom | axiom in t.axioms && MeetsPlainly(a, axiom, t.entities[i]) :: Annotates(a, axiom)
    requires forall rule | rule in t.extensions :: !MeetsPlainly(a, rule, t.entities[i])
    ensures built.plain[i] == 0 && built.referenced[i] > 0
  {
    var e := t.entities[i];
    IndexCounts(a, t, built, i);
    assert AxiomsMeeting(a, t.axioms, e) == {} && RulesMeeting(a, t.extensions, e) == {};
    assert e in t.entities;
  }

  // ----- Which tables are accepted

  /** Every entity that the root meets is in the table. */
  ghost predicate ListsAllMet(a: Arena, root: nat, entities: seq<nat>)
  {
    forall e: nat | Meets(a, root, e) :: e in entities
  }

  lemma IndexedMet(a: Arena, root: nat, entities: seq<nat>)
    ensures Indexed(a, true, root, entities) <==> ListsAllMet(a, root, entities)
  {
    forall e: nat
      ensures Reaches(a, true, root, e) <==> Meets(a, root, e)
    {
      ReachesMeets(a, root, e);
    }
  }

  /** The root is a component of that category whose entities are all listed. */
  ghost predicate GoodRoot(a: Arena, root: nat, category: Category, entities: seq<nat>)
  {
    root < |a| && a[root].category == category && ListsAllMet(a, root, entities)
  }

  /** Moreover, if it is a declaration it starts with an entity. */
  ghost predicate GoodAxiom(a: Arena, r: nat, entities: seq<nat>)
  {
    GoodRoot(a, r, Axiom, entities) && (a[r].tag == 60 ==> exists e :: Declares(a, r, e))
  }

  lemma AxiomAccepted(a: Arena, r: nat, entities: seq<nat>)
    ensures ValidAxiom(a, r, entities) <==> GoodAxiom(a, r, entities)
  {
    IndexedMet(a, r, entities);
    if Declared(a, r).Some? {
      assert Declares(a, r, Declared(a, r).value);
    }
  }

  lemma RootsAccepted(a: Arena, roots: seq<nat>, category: Category, entities: seq<nat>)
    ensures AllValid(a, roots, category, entities) <==> forall r | r in roots :: GoodRoot(a, r, category, entities)
  {
    forall r | r in roots
      ensures ValidRoot(a, r, category, entities) <==> GoodRoot(a, r, category, entities)
    {
      IndexedMet(a, r, entities);
    }
  }

  /** Tables are valid exactly when the entities are different components of that category, every
      root is of the category of its table and meets listed entities only, and every axiom of tag
      60 starts with an entity. */
  lemma TablesAccepted(a: Arena, t: Tables)
    ensures ValidTables(a, t) <==>
      && (forall i, j | 0 <= i < j < |t.entities| :: t.entities[i] != t.entities[j])
      && (forall i | 0 <= i < |t.entities| :: t.entities[i] < |a| && a[t.entities[i]].category == Entity)
      && (forall r | r in t.annotations :: GoodRoot(a, r, Annotation, t.entities))
      && (forall r | r in t.axioms :: GoodAxiom(a, r, t.entities))
      && (forall r | r in t.extensions :: GoodRoot(a, r, Swrl, t.entities))
  {
    RootsAccepted(a, t.annotations, Annotation, t.entities);
    RootsAccepted(a, t.extensions, Swrl, t.entities);
    forall r | r in t.axioms
      ensures ValidAxiom(a, r, t.entities) <==> GoodAxiom(a, r, t.entities)
    {
      AxiomAccepted(a, r, t.entities);
    }
  }
}
