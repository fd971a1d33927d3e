/** Merging duplicate owl:Axiom resources: the replacement fixpoint over reified triples computes
    the least congruence, and one element of every class survives, carrying its least term. */
module ReificationMerge {
  import opened Ordering
  import opened TermOrder

  // ----- Replacement forests

  type Replacements = map<Term, Term>

  /** Every replacement strictly lowers the sort key. */
  ghost predicate Lowering(m: Replacements)
  {
    forall t | t in m :: Lower(m[t], t)
  }

  ghost function AtOrBelow(m: Replacements, t: Term): set<Term>
  {
    set k | k in m && (k == t || Lower(k, t))
  }

  lemma StepDescends(m: Replacements, t: Term)
    requires t in m && Lower(m[t], t)
    ensures AtOrBelow(m, m[t]) < AtOrBelow(m, t)
  {
    forall k | k in AtOrBelow(m, m[t])
      ensures k in AtOrBelow(m, t)
    {
      if k != m[t] { LowerTransitive(k, m[t], t); }
    }
    if t in AtOrBelow(m, m[t]) {
      if t != m[t] { LowerTransitive(t, m[t], t); }
      LowerIrreflexive(t);
    }
    assert t in AtOrBelow(m, t);
  }

  /** The root of a term's replacement chain, following lowering edges. */
  ghost function Resolve(m: Replacements, t: Term): Term
    decreases AtOrBelow(m, t)
  {
    if t in m && Lower(m[t], t) then StepDescends(m, t); Resolve(m, m[t]) else t
  }

  lemma {:induction false} ResolveRoot(m: Replacements, t: Term)
    requires Lowering(m)
    ensures Resolve(m, t) !in m
    ensures Resolve(m, t) == t || Lower(Resolve(m, t), t)
    decreases AtOrBelow(m, t)
  {
    if t in m {
      StepDescends(m, t);
      ResolveRoot(m, m[t]);
      if Resolve(m, m[t]) != m[t] { LowerTransitive(Resolve(m, m[t]), m[t], t); }
    }
  }

  /** A chain of replacements. */
  ghost predicate Leads(m: Replacements, path: seq<Term>)
  {
    forall i | 0 <= i < |path| - 1 :: path[i] in m && m[path[i]] == path[i + 1]
  }

  ghost predicate LeadsTo(m: Replacements, path: seq<Term>, from: Term, to: Term)
  {
    path != [] && path[0] == from && path[|path| - 1] == to && Leads(m, path)
  }

  /** Replacements of a term run in a circle. */
  ghost predicate Circles(m: Replacements, term: Term)
  {
    exists path, t :: LeadsTo(m, path, term, t) && t in path[..|path| - 1]
  }

  lemma LeadsOn(m: Replacements, path: seq<Term>, from: Term, to: Term)
    requires LeadsTo(m, path, from, to) && to in m
    ensures LeadsTo(m, path + [m[to]], from, m[to])
  {
    var longer := path + [m[to]];
    forall i | 0 <= i < |longer| - 1
      ensures longer[i] in m && m[longer[i]] == longer[i + 1]
    {
      if i < |path| - 1 {
        assert path[i + 1] == longer[i + 1];
      }
    }
  }

  /** The source's loop: it reports a circle only where there is one, so never on lowering
      replacements, and otherwise follows the chain to its end. */
  method ResolveReplacement(term: Term, m: Replacements) returns (r: Option<Term>)
    ensures r.None? ==> Circles(m, term)
    ensures r.Some? ==> r.value !in m && exists path :: LeadsTo(m, path, term, r.value)
    ensures Lowering(m) ==> r == Some(Resolve(m, term))
  {
    var seen: set<Term> := {};
    var current := term;
    ghost var path := [term];
    while current in m
      invariant LeadsTo(m, path, term, current) && forall s :: s in seen <==> s in path[..|path| - 1]
      invariant Lowering(m) ==> Resolve(m, current) == Resolve(m, term) && forall s | s in seen :: Lower(current, s)
      decreases m.Keys - seen
    {
      LowerIrreflexive(current);
      if current in seen {
        return None;
      }
      if Lowering(m) {
        StepBelow(m, current, seen);
      }
      seen := seen + {current};
      LeadsOn(m, path, term, current);
      assert (path + [m[current]])[..|path|] == path;
      path := path + [m[current]];
      current := m[current];
    }
    return Some(current);
  }

  lemma StepBelow(m: Replacements, current: Term, seen: set<Term>)
    requires Lowering(m) && current in m && forall s | s in seen :: Lower(current, s)
    ensures Resolve(m, m[current]) == Resolve(m, current)
    ensures forall s | s in seen + {current} :: Lower(m[current], s)
  {
    forall s | s in seen + {current}
      ensures Lower(m[current], s)
    {
      if s != current { LowerTransitive(m[current], current, s); }
    }
  }

  /** Adding an edge between two roots redirects exactly the class of the upper one. */
  lemma {:induction false} AddEdge(m: Replacements, d: Term, rep: Term, t: Term)
    requires Lowering(m) && d !in m && rep !in m && Lower(rep, d)
    ensures Lowering(m[d := rep])
    ensures Resolve(m[d := rep], t) == if Resolve(m, t) == d then rep else Resolve(m, t)
    decreases AtOrBelow(m, t)
  {
    LowerIrreflexive(d);
    if t in m {
      StepDescends(m, t);
      AddEdge(m, d, rep, m[t]);
    }
  }

  // ----- Reifications and the congruence they force

  datatype Reification = Reification(occurrence: nat, subject: Term, source: Term, property: Term, target: Term)

  datatype Triple = Triple(source: Term, property: Term, target: Term)

  ghost function Key(m: Replacements, r: Reification): Triple
  {
    Triple(Resolve(m, r.source), Resolve(m, r.property), Resolve(m, r.target))
  }

  /** An equivalence that identifies the subjects of reifications whose triples it identifies. */
  ghost predicate IsCongruence(rs: seq<Reification>, R: (Term, Term) -> bool)
  {
    && (forall a :: R(a, a))
    && (forall a, b | R(a, b) :: R(b, a))
    && (forall a, b, c | R(a, b) && R(b, c) :: R(a, c))
    && (forall p, q | && p in rs && q in rs
                      && R(p.source, q.source) && R(p.property, q.property) && R(p.target, q.target) ::
          R(p.subject, q.subject))
  }

  ghost predicate Below(m: Replacements, R: (Term, Term) -> bool)
  {
    forall t | t in m :: R(t, m[t])
  }

  /** Nothing is identified that some congruence keeps apart. */
  ghost predicate Sound(rs: seq<Reification>, m: Replacements)
  {
    forall R | IsCongruence(rs, R) :: Below(m, R)
  }

  /** Identified subjects have identified triples. */
  ghost predicate Coherent(rs: seq<Reification>, m: Replacements)
  {
    forall p, q | p in rs && q in rs && Resolve(m, p.subject) == Resolve(m, q.subject) :: Key(m, p) == Key(m, q)
  }

  ghost function Subjects(rs: seq<Reification>): set<Term>
  {
    set r | r in rs :: r.subject
  }

  ghost predicate Consistent(rs: seq<Reification>, m: Replacements)
  {
    && Lowering(m)
    && m.Keys <= Subjects(rs)
    && (forall t | t in m :: m[t] in Subjects(rs))
    && Sound(rs, m)
    && Coherent(rs, m)
  }

  lemma {:induction false} ResolveSubject(rs: seq<Reification>, m: Replacements, t: Term)
    requires Consistent(rs, m) && t in Subjects(rs)
    ensures Resolve(m, t) in Subjects(rs)
    decreases AtOrBelow(m, t)
  {
    if t in m {
      StepDescends(m, t);
      ResolveSubject(rs, m, m[t]);
    }
  }

  lemma {:induction false} ResolveRelated(rs: seq<Reification>, m: Replacements, R: (Term, Term) -> bool, t: Term)
    requires Lowering(m) && IsCongruence(rs, R) && Below(m, R)
    ensures R(t, Resolve(m, t))
    decreases AtOrBelow(m, t)
  {
    if t in m {
      StepDescends(m, t);
      ResolveRelated(rs, m, R, m[t]);
    }
  }

  lemma SameRootRelated(rs: seq<Reification>, m: Replacements, R: (Term, Term) -> bool, a: Term, b: Term)
    requires Lowering(m) && IsCongruence(rs, R) && Below(m, R) && Resolve(m, a) == Resolve(m, b)
    ensures R(a, b)
  {
    ResolveRelated(rs, m, R, a);
    ResolveRelated(rs, m, R, b);
  }

  /** Reifications grouped together under `m` stay together under `n`. */
  ghost predicate KeepsGroups(rs: seq<Reification>, m: Replacements, n: Replacements)
  {
    forall p, q | p in rs && q in rs && Key(m, p) == Key(m, q) :: Key(n, p) == Key(n, q)
  }

  ghost function Join(m: Replacements, p: Reification, q: Reification): Replacements
  {
    m[Resolve(m, p.subject) := Resolve(m, q.subject)]
  }

  /** One merge: two reifications with equal resolved triples get their roots identified. */
  lemma MergeStep(rs: seq<Reification>, m: Replacements, p: Reification, q: Reification)
    requires Consistent(rs, m) && p in rs && q in rs && Key(m, p) == Key(m, q)
    requires Lower(Resolve(m, q.subject), Resolve(m, p.subject))
    ensures Consistent(rs, Join(m, p, q)) && KeepsGroups(rs, m, Join(m, p, q))
  {
    JoinResolves(m, p, q);
    ResolveSubject(rs, m, p.subject);
    ResolveSubject(rs, m, q.subject);
    MergeSound(rs, m, p, q);
    MergeCoherent(rs, m, p, q);
  }

  lemma JoinResolvesAt(m: Replacements, p: Reification, q: Reification, t: Term)
    requires Lowering(m) && Lower(Resolve(m, q.subject), Resolve(m, p.subject))
    ensures Lowering(Join(m, p, q))
    ensures Resolve(Join(m, p, q), t)
         == if Resolve(m, t) == Resolve(m, p.subject) then Resolve(m, q.subject) else Resolve(m, t)
  {
    ResolveRoot(m, p.subject);
    ResolveRoot(m, q.subject);
    AddEdge(m, Resolve(m, p.subject), Resolve(m, q.subject), t);
  }

  lemma JoinResolves(m: Replacements, p: Reification, q: Reification)
    requires Lowering(m) && Lower(Resolve(m, q.subject), Resolve(m, p.subject))
    ensures Lowering(Join(m, p, q))
    ensures forall t :: Resolve(Join(m, p, q), t)
                     == if Resolve(m, t) == Resolve(m, p.subject) then Resolve(m, q.subject) else Resolve(m, t)
  {
    JoinResolvesAt(m, p, q, p.subject);
    forall t
      ensures Resolve(Join(m, p, q), t)
           == if Resolve(m, t) == Resolve(m, p.subject) then Resolve(m, q.subject) else Resolve(m, t)
    {
      JoinResolvesAt(m, p, q, t);
    }
  }

  lemma MergeSound(rs: seq<Reification>, m: Replacements, p: Reification, q: Reification)
    requires Consistent(rs, m) && p in rs && q in rs && Key(m, p) == Key(m, q)
    ensures Sound(rs, Join(m, p, q))
  {
    forall R | IsCongruence(rs, R)
      ensures Below(Join(m, p, q), R)
    {
      assert Below(m, R);
      RootsRelated(rs, m, R, p, q);
    }
  }

  lemma RootsRelated(rs: seq<Reification>, m: Replacements, R: (Term, Term) -> bool, p: Reification, q: Reification)
    requires Lowering(m) && IsCongruence(rs, R) && Below(m, R) && p in rs && q in rs && Key(m, p) == Key(m, q)
    ensures R(Resolve(m, p.subject), Resolve(m, q.subject))
  {
    SameRootRelated(rs, m, R, p.source, q.source);
    SameRootRelated(rs, m, R, p.property, q.property);
    SameRootRelated(rs, m, R, p.target, q.target);
    ResolveRelated(rs, m, R, p.subject);
    ResolveRelated(rs, m, R, q.subject);
    assert R(p.subject, q.subject);
    assert R(Resolve(m, p.subject), q.subject);
  }

  lemma MergeCoherent(rs: seq<Reification>, m: Replacements, p: Reification, q: Reification)
    requires Consistent(rs, m) && p in rs && q in rs && Key(m, p) == Key(m, q)
    requires Lower(Resolve(m, q.subject), Resolve(m, p.subject))
    ensures Lowering(Join(m, p, q)) && Coherent(rs, Join(m, p, q))
  {
    JoinResolves(m, p, q);
    var n, d, rep := Join(m, p, q), Resolve(m, p.subject), Resolve(m, q.subject);
    forall a, b | a in rs && b in rs && Resolve(n, a.subject) == Resolve(n, b.subject)
      ensures Key(n, a) == Key(n, b)
    {
      var x, y := Resolve(m, a.subject), Resolve(m, b.subject);
      assert x == y || (x in {d, rep} && y in {d, rep});
      assert Key(m, a) == Key(m, b);
    }
  }

  // ----- One round over the groups

  type Groups = map<Triple, seq<Reification>>

  ghost predicate Grouped(rs: seq<Reification>, m: Replacements, order: seq<Triple>, groups: Groups)
  {
    && (forall k :: k in order <==> k in groups)
    && (forall i, j | 0 <= i < j < |order| :: order[i] != order[j])
    && (forall k | k in groups :: groups[k] != [])
    && (forall k, r | k in groups && r in groups[k] :: r in rs && Key(m, r) == k)
    && (forall r | r in rs :: Key(m, r) in groups && r in groups[Key(m, r)])
  }

  /** The reifications by resolved triple, groups in order of first appearance. */
  method GroupReifications(rs: seq<Reification>, m: Replacements) returns (order: seq<Triple>, groups: Groups)
    requires Lowering(m)
    ensures Grouped(rs, m, order, groups)
  {
    order, groups := [], map[];
    for i := 0 to |rs|
      invariant Grouped(rs[..i], m, order, groups)
    {
      var source := ResolveReplacement(rs[i].source, m);
      var property := ResolveReplacement(rs[i].property, m);
      var target := ResolveReplacement(rs[i].target, m);
      var key := Triple(source.value, property.value, target.value);
      assert rs[..i + 1] == rs[..i] + [rs[i]];
      AddToGroup(rs[..i], m, order, groups, rs[i]);
      var previous := if key in groups then groups[key] else [];
      order := if key in groups then order else order + [key];
      groups := groups[key := previous + [rs[i]]];
    }
    assert rs[..|rs|] == rs;
  }

  lemma AddToGroup(rs: seq<Reification>, m: Replacements, order: seq<Triple>, groups: Groups, r: Reification)
    requires Grouped(rs, m, order, groups)
    ensures var key := Key(m, r);
      var previous := if key in groups then groups[key] else [];
      Grouped(rs + [r], m, if key in groups then order else order + [key], groups[key := previous + [r]])
  {
  }

  /** The least of a set of resources. */
  method LeastTerm(terms: set<Term>) returns (least: Term)
    requires terms != {} && forall t | t in terms :: IsResource(t)
    ensures least in terms && forall t | t in terms :: t == least || Lower(least, t)
  {
    least :| least in terms;
    var rest := terms - {least};
    while rest != {}
      invariant least in terms && rest <= terms
      invariant forall t | t in terms - rest :: t == least || Lower(least, t)
      decreases rest
    {
      var t :| t in rest;
      LowerTotal(least, t);
      if Lower(t, least) {
        forall s | s in terms - (rest - {t})
          ensures s == t || Lower(t, s)
        {
          if s != t && s != least { LowerTransitive(t, least, s); }
        }
        least := t;
      }
      rest := rest - {t};
    }
  }

  ghost predicate SubjectsAreResources(rs: seq<Reification>)
  {
    forall r | r in rs :: IsResource(r.subject)
  }

  /** Some reifications with equal resolved triples. */
  ghost predicate IsGroup(rs: seq<Reification>, m: Replacements, group: seq<Reification>)
  {
    && group != []
    && (forall r | r in group :: r in rs)
    && (forall p, q | p in group && q in group :: Key(m, p) == Key(m, q))
  }

  ghost function Roots(m: Replacements, group: seq<Reification>): set<Term>
  {
    set r | r in group :: Resolve(m, r.subject)
  }

  method ResolvedSubjects(m: Replacements, group: seq<Reification>) returns (terms: set<Term>)
    requires Lowering(m)
    ensures terms == Roots(m, group)
  {
    terms := {};
    for k := 0 to |group|
      invariant terms == Roots(m, group[..k])
    {
      assert group[..k + 1] == group[..k] + [group[k]];
      var term := ResolveReplacement(group[k].subject, m);
      terms := terms + {term.value};
    }
    assert group[..|group|] == group;
  }

  lemma RootsAreResources(rs: seq<Reification>, m: Replacements, group: seq<Reification>)
    requires Lowering(m) && SubjectsAreResources(rs) && IsGroup(rs, m, group)
    ensures Roots(m, group) != {} && forall t | t in Roots(m, group) :: IsResource(t) && t !in m
  {
    assert Resolve(m, group[0].subject) in Roots(m, group);
    forall t | t in Roots(m, group)
      ensures IsResource(t) && t !in m
    {
      var r :| r in group && Resolve(m, r.subject) == t;
      ResolveRoot(m, r.subject);
    }
  }

  /** Identifies all subjects of a group with the least of their roots. */
  method MergeGroup(rs: seq<Reification>, m: Replacements, group: seq<Reification>)
    returns (n: Replacements, changed: bool)
    requires Consistent(rs, m) && SubjectsAreResources(rs) && IsGroup(rs, m, group)
    ensures Consistent(rs, n) && KeepsGroups(rs, m, n) && |Roots(n, group)| == 1
    ensures if changed then m.Keys < n.Keys else n == m
  {
    var terms := ResolvedSubjects(m, group);
    RootsAreResources(rs, m, group);
    var representative := LeastTerm(terms);
    n, changed := m, false;
    var duplicates := terms - {representative};
    while duplicates != {}
      invariant Merging(rs, m, n, group, duplicates, representative)
      invariant duplicates <= terms
      invariant if changed then m.Keys < n.Keys else n == m
      decreases duplicates
    {
      var duplicate := LeastTerm(duplicates);
      MergeOne(rs, m, n, group, duplicates, duplicate, representative);
      n := n[duplicate := representative];
      duplicates := duplicates - {duplicate};
      changed := true;
    }
  }

  /** Part way through a group: the roots left are the duplicates still to go and the least one. */
  ghost predicate Merging(rs: seq<Reification>, m: Replacements, n: Replacements, group: seq<Reification>,
                          duplicates: set<Term>, rep: Term)
  {
    && Consistent(rs, n) && KeepsGroups(rs, m, n) && IsGroup(rs, n, group)
    && Roots(n, group) == duplicates + {rep}
    && (forall d | d in duplicates :: Lower(rep, d))
  }

  lemma MergeOne(rs: seq<Reification>, m: Replacements, n: Replacements, group: seq<Reification>,
                 duplicates: set<Term>, d: Term, rep: Term)
    requires Merging(rs, m, n, group, duplicates, rep) && d in duplicates
    ensures d !in n && Merging(rs, m, n[d := rep], group, duplicates - {d}, rep)
  {
    LowerIrreflexive(d);
    JoinRoots(rs, n, group, d, rep);
    GroupKept(rs, n, n[d := rep], group);
  }

  lemma JoinRoots(rs: seq<Reification>, n: Replacements, group: seq<Reification>, d: Term, rep: Term)
    requires Consistent(rs, n) && IsGroup(rs, n, group)
    requires d in Roots(n, group) && rep in Roots(n, group) && Lower(rep, d)
    ensures d !in n && Consistent(rs, n[d := rep]) && KeepsGroups(rs, n, n[d := rep])
    ensures Roots(n[d := rep], group) == Roots(n, group) - {d}
  {
    var p :| p in group && Resolve(n, p.subject) == d;
    var q :| q in group && Resolve(n, q.subject) == rep;
    ResolveRoot(n, p.subject);
    LowerIrreflexive(d);
    MergeStep(rs, n, p, q);
    RootsJoined(n, group, p, q);
  }

  lemma RootsJoined(n: Replacements, group: seq<Reification>, p: Reification, q: Reification)
    requires Lowering(n) && p in group && q in group && Lower(Resolve(n, q.subject), Resolve(n, p.subject))
    ensures Lowering(Join(n, p, q))
    ensures Roots(Join(n, p, q), group) == Roots(n, group) - {Resolve(n, p.subject)}
  {
    var d, before, after := Resolve(n, p.subject), Roots(n, group), Roots(Join(n, p, q), group);
    JoinResolvesAt(n, p, q, p.subject);
    forall t
      ensures t in after <==> t in before && t != d
    {
      RootJoined(n, group, p, q, t);
    }
    assert after == before - {d};
  }

  lemma RootJoined(n: Replacements, group: seq<Reification>, p: Reification, q: Reification, t: Term)
    requires Lowering(n) && q in group && Lower(Resolve(n, q.subject), Resolve(n, p.subject))
    ensures t in Roots(Join(n, p, q), group) <==> t in Roots(n, group) && t != Resolve(n, p.subject)
  {
    LowerIrreflexive(Resolve(n, p.subject));
    if t in Roots(Join(n, p, q), group) {
      var r :| r in group && Resolve(Join(n, p, q), r.subject) == t;
      JoinResolvesAt(n, p, q, r.subject);
    }
    if t in Roots(n, group) && t != Resolve(n, p.subject) {
      var r :| r in group && Resolve(n, r.subject) == t;
      JoinResolvesAt(n, p, q, r.subject);
    }
  }

  /** Equal resolved triples force equal resolved subjects. */
  ghost predicate Closed(rs: seq<Reification>, m: Replacements)
  {
    forall p, q | p in rs && q in rs && Key(m, p) == Key(m, q) :: Resolve(m, p.subject) == Resolve(m, q.subject)
  }

  /** One group of a pass, formed under the map the pass began with. */
  method PassGroup(rs: seq<Reification>, ghost m: Replacements, n: Replacements, group: seq<Reification>)
    returns (next: Replacements, merged: bool)
    requires Consistent(rs, n) && SubjectsAreResources(rs) && KeepsGroups(rs, m, n) && IsGroup(rs, m, group)
    requires group != []
    ensures Consistent(rs, next) && KeepsGroups(rs, m, next)
    ensures if merged then n.Keys < next.Keys else next == n && |Roots(n, group)| == 1
  {
    if |group| < 2 {
      SingleRoot(n, group);
      return n, false;
    }
    GroupKept(rs, m, n, group);
    next, merged := MergeGroup(rs, n, group);
    KeepsMore(rs, m, n, next);
  }

  lemma KeepsMore(rs: seq<Reification>, l: Replacements, m: Replacements, n: Replacements)
    requires KeepsGroups(rs, l, m) && KeepsGroups(rs, m, n)
    ensures KeepsGroups(rs, l, n)
  {
  }

  ghost predicate AreGroups(rs: seq<Reification>, m: Replacements, groups: seq<seq<Reification>>)
  {
    forall k | 0 <= k < |groups| :: IsGroup(rs, m, groups[k]) && groups[k] != []
  }

  /** The first groups each have one root. */
  ghost predicate Unified(m: Replacements, groups: seq<seq<Reification>>, upTo: nat)
    requires upTo <= |groups|
  {
    upTo == 0 || (Unified(m, groups, upTo - 1) && |Roots(m, groups[upTo - 1])| == 1)
  }

  lemma {:induction false} UnifiedAt(m: Replacements, groups: seq<seq<Reification>>, upTo: nat, k: nat)
    requires k < upTo <= |groups| && Unified(m, groups, upTo)
    ensures |Roots(m, groups[k])| == 1
  {
    if k < upTo - 1 {
      UnifiedAt(m, groups, upTo - 1, k);
    }
  }

  method Pass(rs: seq<Reification>, m: Replacements, groups: seq<seq<Reification>>)
    returns (n: Replacements, changed: bool)
    requires Consistent(rs, m) && SubjectsAreResources(rs) && AreGroups(rs, m, groups)
    ensures Consistent(rs, n)
    ensures if changed then m.Keys < n.Keys else n == m && Unified(m, groups, |groups|)
  {
    n, changed := m, false;
    for k := 0 to |groups|
      invariant Consistent(rs, n) && KeepsGroups(rs, m, n)
      invariant if changed then m.Keys < n.Keys else n == m && Unified(m, groups, k)
    {
      var merged: bool;
      n, merged := PassGroup(rs, m, n, groups[k]);
      changed := changed || merged;
    }
  }

  function InOrder(order: seq<Triple>, groups: Groups): (lists: seq<seq<Reification>>)
    requires forall k | k in order :: k in groups
    ensures |lists| == |order| && forall i | 0 <= i < |order| :: lists[i] == groups[order[i]]
  {
    if order == [] then []
    else InOrder(order[..|order| - 1], groups) + [groups[order[|order| - 1]]]
  }

  lemma FormedGroups(rs: seq<Reification>, m: Replacements, order: seq<Triple>, groups: Groups)
    requires Grouped(rs, m, order, groups)
    ensures AreGroups(rs, m, InOrder(order, groups))
  {
    var lists := InOrder(order, groups);
    forall k | 0 <= k < |lists|
      ensures IsGroup(rs, m, lists[k]) && lists[k] != []
    {
      FormsGroup(rs, m, order, groups, order[k]);
    }
  }

  /** One pass over all groups.  Groups are formed once, before the pass; the map grows during it. */
  method Round(rs: seq<Reification>, m: Replacements) returns (n: Replacements, changed: bool)
    requires Consistent(rs, m) && SubjectsAreResources(rs)
    ensures Consistent(rs, n)
    ensures if changed then m.Keys < n.Keys else n == m && Closed(rs, n)
  {
    var order, groups := GroupReifications(rs, m);
    FormedGroups(rs, m, order, groups);
    n, changed := Pass(rs, m, InOrder(order, groups));
    if !changed {
      UnifiedClosed(rs, m, order, groups);
    }
  }

  lemma SingleRoot(m: Replacements, group: seq<Reification>)
    requires |group| == 1
    ensures |Roots(m, group)| == 1
  {
    assert Roots(m, group) == {Resolve(m, group[0].subject)};
  }

  lemma FormsGroup(rs: seq<Reification>, m: Replacements, order: seq<Triple>, groups: Groups, k: Triple)
    requires Grouped(rs, m, order, groups) && k in groups
    ensures IsGroup(rs, m, groups[k]) && groups[k] != []
  {
  }

  lemma GroupKept(rs: seq<Reification>, m: Replacements, n: Replacements, group: seq<Reification>)
    requires KeepsGroups(rs, m, n) && IsGroup(rs, m, group)
    ensures IsGroup(rs, n, group)
  {
  }

  lemma UnifiedClosed(rs: seq<Reification>, m: Replacements, order: seq<Triple>, groups: Groups)
    requires Grouped(rs, m, order, groups) && Unified(m, InOrder(order, groups), |order|)
    ensures Closed(rs, m)
  {
    forall p, q | p in rs && q in rs && Key(m, p) == Key(m, q)
      ensures Resolve(m, p.subject) == Resolve(m, q.subject)
    {
      var k := Key(m, p);
      var j :| 0 <= j < |order| && order[j] == k;
      UnifiedAt(m, InOrder(order, groups), |order|, j);
      OneRoot(m, groups[k], p, q);
    }
  }

  lemma OneRoot(m: Replacements, group: seq<Reification>, p: Reification, q: Reification)
    requires |Roots(m, group)| == 1 && p in group && q in group
    ensures Resolve(m, p.subject) == Resolve(m, q.subject)
  {
    Singleton(Roots(m, group), Resolve(m, p.subject), Resolve(m, q.subject));
  }

  // ----- The fixpoint

  function RawTriple(r: Reification): Triple { Triple(r.source, r.property, r.target) }

  /** No subject carries two different triples. */
  ghost predicate Unambiguous(rs: seq<Reification>)
  {
    forall p, q | p in rs && q in rs && p.subject == q.subject :: RawTriple(p) == RawTriple(q)
  }

  method CheckSubjects(rs: seq<Reification>) returns (ok: bool)
    ensures ok <==> Unambiguous(rs)
  {
    var triples: map<Term, set<Triple>> := map[];
    for i := 0 to |rs|
      invariant triples.Keys == Subjects(rs[..i])
      invariant forall t | t in triples :: triples[t] == (set r | r in rs[..i] && r.subject == t :: RawTriple(r))
    {
      assert rs[..i + 1] == rs[..i] + [rs[i]];
      var previous := if rs[i].subject in triples then triples[rs[i].subject] else {};
      triples := triples[rs[i].subject := previous + {RawTriple(rs[i])}];
    }
    assert rs[..|rs|] == rs;
    ok := forall t | t in triples :: |triples[t]| == 1;
    forall t | t in triples
      ensures |triples[t]| == 1
         <==> forall p, q | p in rs && q in rs && p.subject == q.subject == t :: RawTriple(p) == RawTriple(q)
    {
      SingleTriple(rs, t, triples[t]);
    }
    if Unambiguous(rs) {
      assert ok;
    } else {
      var p, q :| p in rs && q in rs && p.subject == q.subject && RawTriple(p) != RawTriple(q);
      assert p.subject in triples;
    }
  }

  lemma SingleTriple(rs: seq<Reification>, t: Term, triples: set<Triple>)
    requires t in Subjects(rs) && triples == set r | r in rs && r.subject == t :: RawTriple(r)
    ensures |triples| == 1
       <==> forall p, q | p in rs && q in rs && p.subject == q.subject == t :: RawTriple(p) == RawTriple(q)
  {
    var r :| r in rs && r.subject == t;
    assert RawTriple(r) in triples;
    if |triples| == 1 {
      forall p, q | p in rs && q in rs && p.subject == q.subject == t
        ensures RawTriple(p) == RawTriple(q)
      {
        Singleton(triples, RawTriple(p), RawTriple(q));
      }
    }
    if forall p, q | p in rs && q in rs && p.subject == q.subject == t :: RawTriple(p) == RawTriple(q) {
      assert triples == {RawTriple(r)};
    }
  }

  lemma EmptyConsistent(rs: seq<Reification>)
    requires Unambiguous(rs)
    ensures Consistent(rs, map[])
  {
    forall p, q | p in rs && q in rs && Resolve(map[], p.subject) == Resolve(map[], q.subject)
      ensures Key(map[], p) == Key(map[], q)
    {
      assert RawTriple(p) == RawTriple(q);
    }
  }

  /** Rounds until nothing changes.  Every changing round retires a subject, so it ends. */
  method ReplacementFixpoint(rs: seq<Reification>) returns (m: Replacements)
    requires Unambiguous(rs) && SubjectsAreResources(rs)
    ensures Consistent(rs, m) && Closed(rs, m)
  {
    m := map[];
    EmptyConsistent(rs);
    var changed := true;
    while changed
      invariant Consistent(rs, m) && (!changed ==> Closed(rs, m))
      decreases changed, Subjects(rs) - m.Keys
    {
      var n;
      n, changed := Round(rs, m);
      if changed {
        assert Subjects(rs) - n.Keys < Subjects(rs) - m.Keys;
      }
      m := n;
    }
  }

  // ----- What the fixpoint computes

  ghost function SameRoot(m: Replacements): (Term, Term) -> bool
  {
    (a, b) => Resolve(m, a) == Resolve(m, b)
  }

  lemma KernelIsCongruence(rs: seq<Reification>, m: Replacements)
    requires Closed(rs, m)
    ensures IsCongruence(rs, SameRoot(m))
  {
  }

  /** The identification is the least congruence: it is one, and every other contains it. */
  lemma FixpointIsLeastCongruence(rs: seq<Reification>, m: Replacements)
    requires Consistent(rs, m) && Closed(rs, m)
    ensures IsCongruence(rs, SameRoot(m))
    ensures forall R, a, b | IsCongruence(rs, R) && Resolve(m, a) == Resolve(m, b) :: R(a, b)
    ensures forall p, q | p in rs && q in rs ::
              Resolve(m, p.subject) == Resolve(m, q.subject) <==> Key(m, p) == Key(m, q)
  {
    KernelIsCongruence(rs, m);
    forall R, a, b | IsCongruence(rs, R) && Resolve(m, a) == Resolve(m, b)
      ensures R(a, b)
    {
      assert Below(m, R);
      SameRootRelated(rs, m, R, a, b);
    }
  }

  /** Every class resolves to its least member. */
  lemma ResolvesToLeast(m: Replacements, t: Term, s: Term)
    requires Lowering(m) && Resolve(m, s) == Resolve(m, t)
    ensures Resolve(m, Resolve(m, t)) == Resolve(m, t)
    ensures s == Resolve(m, t) || Lower(Resolve(m, t), s)
  {
    ResolveRoot(m, t);
    ResolveRoot(m, s);
  }

  /** So the outcome does not depend on the order in which groups are visited. */
  lemma ResolutionUnique(rs: seq<Reification>, m: Replacements, n: Replacements, t: Term)
    requires Consistent(rs, m) && Closed(rs, m) && Consistent(rs, n) && Closed(rs, n)
    ensures Resolve(m, t) == Resolve(n, t)
  {
    var r, s := Resolve(m, t), Resolve(n, t);
    Contained(rs, m, n, t);
    Contained(rs, n, m, t);
    ResolvesToLeast(n, t, r);
    ResolvesToLeast(m, t, s);
    if r != s {
      LowerTransitive(r, s, r);
      LowerIrreflexive(r);
    }
  }

  lemma Contained(rs: seq<Reification>, m: Replacements, n: Replacements, t: Term)
    requires Consistent(rs, m) && Lowering(n) && Closed(rs, n)
    ensures Resolve(n, Resolve(m, t)) == Resolve(n, t)
  {
    KernelIsCongruence(rs, n);
    assert Below(m, SameRoot(n));
    ResolveRelated(rs, m, SameRoot(n), t);
  }

  // ----- Survivors

  ghost predicate DistinctOccurrences(rs: seq<Reification>)
  {
    forall p, q | p in rs && q in rs && p.occurrence == q.occurrence :: p == q
  }

  function SurvivorOf(occurrences: map<nat, nat>, r: Reification): nat
  {
    if r.occurrence in occurrences then occurrences[r.occurrence] else r.occurrence
  }

  /** `s` stands for the whole group and is the first element that carries its least term. */
  ghost predicate StandsFor(m: Replacements, occurrences: map<nat, nat>, group: seq<Reification>, s: Reification)
  {
    && s in group && s.occurrence !in occurrences
    && (forall r | r in group :: SurvivorOf(occurrences, r) == s.occurrence && Resolve(m, r.subject) == s.subject)
    && (forall r | r in group && r.subject == s.subject :: s.occurrence <= r.occurrence)
  }

  lemma RootCarried(rs: seq<Reification>, m: Replacements, order: seq<Triple>, groups: Groups, k: Triple)
    returns (carrier: Reification)
    requires Consistent(rs, m) && Closed(rs, m) && Grouped(rs, m, order, groups) && k in groups
    ensures carrier in groups[k] && forall r | r in groups[k] :: Resolve(m, r.subject) == carrier.subject
  {
    var first := groups[k][0];
    assert first in groups[k];
    ResolveSubject(rs, m, first.subject);
    ResolveRoot(m, first.subject);
    carrier :| carrier in rs && carrier.subject == Resolve(m, first.subject);
    assert Resolve(m, carrier.subject) == Resolve(m, first.subject);
    assert Key(m, carrier) == Key(m, first) == k;
  }

  /** The element of a group that carries the least term, the first such in document order. */
  method ChooseRepresentative(group: seq<Reification>, term: Term) returns (best: Reification)
    requires group != []
    ensures best in group
    ensures (exists r :: r in group && r.subject == term) ==> best.subject == term
    ensures forall r | r in group && (r.subject == term) == (best.subject == term) :: best.occurrence <= r.occurrence
  {
    best := group[0];
    for i := 1 to |group|
      invariant best in group[..i]
      invariant (exists r :: r in group[..i] && r.subject == term) ==> best.subject == term
      invariant forall r | r in group[..i] && (r.subject == term) == (best.subject == term) ::
                best.occurrence <= r.occurrence
    {
      assert group[..i + 1] == group[..i] + [group[i]];
      var r := group[i];
      if best.subject != term && r.subject == term {
        best := r;
      } else if (best.subject == term) == (r.subject == term) && r.occurrence < best.occurrence {
        best := r;
      }
    }
    assert group[..|group|] == group;
  }

  /** Redirects every other element of a group to its representative. */
  method RedirectGroup(occurrences: map<nat, nat>, group: seq<Reification>, best: Reification)
    returns (result: map<nat, nat>)
    requires best in group && forall r | r in group :: r.occurrence !in occurrences
    ensures best.occurrence !in result && forall r | r in group :: SurvivorOf(result, r) == best.occurrence
    ensures forall o | o in result :: o in occurrences || HasOccurrence(group, o)
    ensures forall o | o in occurrences :: o in result
    ensures forall o | o in occurrences :: result[o] == occurrences[o]
  {
    result := occurrences;
    for i := 0 to |group|
      invariant best.occurrence !in result && forall r | r in group[..i] :: SurvivorOf(result, r) == best.occurrence
      invariant forall o | o in result :: o in occurrences || HasOccurrence(group, o)
      invariant forall o | o in occurrences :: o in result
      invariant forall o | o in occurrences :: result[o] == occurrences[o]
    {
      assert group[..i + 1] == group[..i] + [group[i]] && group[i] in group;
      if group[i].occurrence != best.occurrence {
        result := result[group[i].occurrence := best.occurrence];
      }
    }
    assert group[..|group|] == group;
  }

  ghost predicate Settled(m: Replacements, occurrences: map<nat, nat>, group: seq<Reification>)
  {
    exists s :: StandsFor(m, occurrences, group, s)
  }

  ghost predicate HasOccurrence(group: seq<Reification>, o: nat)
  {
    exists r :: r in group && r.occurrence == o
  }

  /** The groups in their order. */
  ghost function Parts(order: seq<Triple>, groups: Groups): (parts: seq<seq<Reification>>)
    requires forall k | k in order :: k in groups
    ensures |parts| == |order| && forall j | 0 <= j < |order| :: parts[j] == groups[order[j]]
  {
    seq(|order|, j requires 0 <= j < |order| => groups[order[j]])
  }

  /** Groups share no occurrence. */
  ghost predicate Apart(parts: seq<seq<Reification>>)
  {
    forall j, k, o | 0 <= j < |parts| && 0 <= k < |parts| && HasOccurrence(parts[j], o) && HasOccurrence(parts[k], o) ::
      j == k
  }

  lemma GroupsApart(rs: seq<Reification>, m: Replacements, order: seq<Triple>, groups: Groups)
    requires Grouped(rs, m, order, groups) && DistinctOccurrences(rs)
    ensures Apart(Parts(order, groups))
  {
    var parts := Parts(order, groups);
    forall j, k, o | 0 <= j < |parts| && 0 <= k < |parts| && HasOccurrence(parts[j], o) && HasOccurrence(parts[k], o)
      ensures j == k
    {
      var p: Reification :| p in parts[j] && p.occurrence == o;
      var q: Reification :| q in parts[k] && q.occurrence == o;
      assert p == q && order[j] == Key(m, p) == order[k];
    }
  }

  /** One of the first `n` groups has the occurrence. */
  ghost predicate Seen(parts: seq<seq<Reification>>, n: nat, o: nat)
    requires n <= |parts|
  {
    exists j :: 0 <= j < n && HasOccurrence(parts[j], o)
  }

  /** Only the first `n` groups have been redirected, and each of them is settled. */
  ghost predicate Progress(m: Replacements, occurrences: map<nat, nat>, parts: seq<seq<Reification>>, n: nat)
    requires n <= |parts|
  {
    AllSettled(m, occurrences, parts, n) && AllSeen(occurrences, parts, n)
  }

  ghost predicate AllSettled(m: Replacements, occurrences: map<nat, nat>, parts: seq<seq<Reification>>, n: nat)
    requires n <= |parts|
  {
    forall j | 0 <= j < n :: Settled(m, occurrences, parts[j])
  }

  ghost predicate AllSeen(occurrences: map<nat, nat>, parts: seq<seq<Reification>>, n: nat)
    requires n <= |parts|
  {
    forall o | o in occurrences :: Seen(parts, n, o)
  }

  lemma SettledKept(m: Replacements, before: map<nat, nat>, after: map<nat, nat>, group: seq<Reification>)
    requires Settled(m, before, group)
    requires forall r | r in group :: r.occurrence in before <==> r.occurrence in after
    requires forall r | r in group && r.occurrence in before :: before[r.occurrence] == after[r.occurrence]
    ensures Settled(m, after, group)
  {
    var s :| StandsFor(m, before, group, s);
    assert StandsFor(m, after, group, s);
  }

  /** Redirecting one group adds occurrences of that group and changes no others. */
  ghost predicate Extends(before: map<nat, nat>, after: map<nat, nat>, group: seq<Reification>)
  {
    && (forall o | o in before :: o in after && after[o] == before[o])
    && (forall o | o in after :: o in before || HasOccurrence(group, o))
  }

  lemma EarlierKept(m: Replacements, parts: seq<seq<Reification>>, n: nat, j: nat,
                    before: map<nat, nat>, after: map<nat, nat>)
    requires Apart(parts) && j < n < |parts| && Settled(m, before, parts[j]) && Extends(before, after, parts[n])
    ensures Settled(m, after, parts[j])
  {
    forall r | r in parts[j] && r.occurrence in after
      ensures r.occurrence in before
    {
      assert HasOccurrence(parts[j], r.occurrence);
    }
    SettledKept(m, before, after, parts[j]);
  }

  lemma SettledNext(m: Replacements, parts: seq<seq<Reification>>, n: nat, before: map<nat, nat>, after: map<nat, nat>)
    requires Apart(parts) && n < |parts| && AllSettled(m, before, parts, n)
    requires Settled(m, after, parts[n]) && Extends(before, after, parts[n])
    ensures AllSettled(m, after, parts, n + 1)
  {
    forall j | 0 <= j < n
      ensures Settled(m, after, parts[j])
    {
      EarlierKept(m, parts, n, j, before, after);
    }
  }

  lemma SeenNext(parts: seq<seq<Reification>>, n: nat, before: map<nat, nat>, after: map<nat, nat>)
    requires n < |parts| && AllSeen(before, parts, n) && Extends(before, after, parts[n])
    ensures AllSeen(after, parts, n + 1)
  {
    forall o | o in after
      ensures Seen(parts, n + 1, o)
    {
      assert o in before ==> Seen(parts, n, o);
    }
  }

  lemma ProgressKept(m: Replacements, parts: seq<seq<Reification>>, n: nat, before: map<nat, nat>, after: map<nat, nat>)
    requires Apart(parts) && n < |parts| && Progress(m, before, parts, n)
    requires Settled(m, after, parts[n]) && Extends(before, after, parts[n])
    ensures Progress(m, after, parts, n + 1)
  {
    SettledNext(m, parts, n, before, after);
    SeenNext(parts, n, before, after);
  }

  lemma Untouched(m: Replacements, parts: seq<seq<Reification>>, n: nat, occurrences: map<nat, nat>, r: Reification)
    requires Apart(parts) && n < |parts| && Progress(m, occurrences, parts, n) && r in parts[n]
    ensures r.occurrence !in occurrences
  {
    assert HasOccurrence(parts[n], r.occurrence);
    assert !Seen(parts, n, r.occurrence);
  }

  /** The least root of a group is carried by one of its elements, which survives. */
  method SettleRoot(rs: seq<Reification>, m: Replacements, group: seq<Reification>, occurrences: map<nat, nat>,
                    ghost carrier: Reification) returns (next: map<nat, nat>)
    requires Lowering(m) && SubjectsAreResources(rs) && IsGroup(rs, m, group)
    requires carrier in group && forall r | r in group :: Resolve(m, r.subject) == carrier.subject
    requires forall r | r in group :: r.occurrence !in occurrences
    ensures Settled(m, next, group) && Extends(occurrences, next, group)
  {
    next := occurrences;
    if |group| >= 2 {
      var terms := ResolvedSubjects(m, group);
      RootsAreResources(rs, m, group);
      var term := LeastTerm(terms);
      var best := ChooseRepresentative(group, term);
      next := RedirectGroup(occurrences, group, best);
      assert StandsFor(m, next, group, best);
    } else {
      assert StandsFor(m, next, group, carrier);
    }
  }

  method SettleGroup(rs: seq<Reification>, m: Replacements, keys: seq<Triple>, table: Groups,
                     occurrences: map<nat, nat>, i: nat) returns (next: map<nat, nat>)
    requires Consistent(rs, m) && Closed(rs, m) && SubjectsAreResources(rs) && DistinctOccurrences(rs)
    requires Grouped(rs, m, keys, table) && i < |keys| && Progress(m, occurrences, Parts(keys, table), i)
    ensures Settled(m, next, table[keys[i]]) && Extends(occurrences, next, table[keys[i]])
  {
    var group: seq<Reification> := table[keys[i]];
    ghost var carrier := RootCarried(rs, m, keys, table, keys[i]);
    GroupsApart(rs, m, keys, table);
    forall r | r in group
      ensures r.occurrence !in occurrences
    {
      Untouched(m, Parts(keys, table), i, occurrences, r);
    }
    FormsGroup(rs, m, keys, table, keys[i]);
    next := SettleRoot(rs, m, group, occurrences, carrier);
  }

  /** The redirections for all groups: afterwards every group has one element standing for it. */
  method RedirectDuplicates(rs: seq<Reification>, m: Replacements)
    returns (occurrences: map<nat, nat>, order: seq<Triple>, groups: Groups)
    requires Consistent(rs, m) && Closed(rs, m) && SubjectsAreResources(rs) && DistinctOccurrences(rs)
    ensures Grouped(rs, m, order, groups)
    ensures forall k | k in groups :: Settled(m, occurrences, groups[k])
  {
    var keys, table := GroupReifications(rs, m);
    order, groups := keys, table;
    occurrences := map[];
    GroupsApart(rs, m, keys, table);
    ghost var parts := Parts(keys, table);
    for i := 0 to |keys|
      invariant Progress(m, occurrences, parts, i)
    {
      var next := SettleGroup(rs, m, keys, table, occurrences, i);
      ProgressKept(m, parts, i, occurrences, next);
      occurrences := next;
    }
    forall k | k in table
      ensures Settled(m, occurrences, table[k])
    {
      var j :| 0 <= j < |keys| && keys[j] == k;
      assert parts[j] == table[k];
    }
  }

  /** `s` is what is left of the class of `p`. */
  ghost predicate Survives(rs: seq<Reification>, m: Replacements, occurrences: map<nat, nat>,
                           p: Reification, s: Reification)
  {
    && s in rs && s.occurrence == SurvivorOf(occurrences, p)
    && s.occurrence !in occurrences && s.subject == Resolve(m, p.subject)
    && forall q | q in rs && q.subject == s.subject :: s.occurrence <= q.occurrence
  }

  /** Exactly one element per class survives; it carries the least term of the class, and is the
      first element in document order that does. */
  ghost predicate OneSurvivor(rs: seq<Reification>, m: Replacements, occurrences: map<nat, nat>)
  {
    && (forall p | p in rs :: exists s :: Survives(rs, m, occurrences, p, s))
    && (forall p, q | p in rs && q in rs ::
          SurvivorOf(occurrences, p) == SurvivorOf(occurrences, q) <==> Resolve(m, p.subject) == Resolve(m, q.subject))
  }

  lemma SettledSurvivors(rs: seq<Reification>, m: Replacements, order: seq<Triple>, groups: Groups,
                         occurrences: map<nat, nat>)
    requires Grouped(rs, m, order, groups) && DistinctOccurrences(rs) && Lowering(m) && Coherent(rs, m)
    requires forall k | k in groups :: Settled(m, occurrences, groups[k])
    ensures OneSurvivor(rs, m, occurrences)
  {
    forall p | p in rs
      ensures exists s :: Survives(rs, m, occurrences, p, s)
    {
      var s := GroupSurvivor(rs, m, order, groups, occurrences, p);
    }
    forall p, q | p in rs && q in rs
      ensures SurvivorOf(occurrences, p) == SurvivorOf(occurrences, q)
         <==> Resolve(m, p.subject) == Resolve(m, q.subject)
    {
      SurvivorPair(rs, m, order, groups, occurrences, p, q);
    }
  }

  lemma GroupSurvivor(rs: seq<Reification>, m: Replacements, order: seq<Triple>, groups: Groups,
                      occurrences: map<nat, nat>, p: Reification) returns (s: Reification)
    requires Grouped(rs, m, order, groups) && p in rs && Settled(m, occurrences, groups[Key(m, p)])
    requires Lowering(m) && Coherent(rs, m)
    ensures Survives(rs, m, occurrences, p, s)
    ensures forall q | q in rs && Key(m, q) == Key(m, p) :: SurvivorOf(occurrences, q) == s.occurrence
  {
    s :| StandsFor(m, occurrences, groups[Key(m, p)], s);
    ResolveRoot(m, p.subject);
    forall q | q in rs && q.subject == s.subject
      ensures s.occurrence <= q.occurrence
    {
      assert Resolve(m, q.subject) == Resolve(m, p.subject);
      assert Key(m, q) == Key(m, p);
    }
  }

  lemma SurvivorPair(rs: seq<Reification>, m: Replacements, order: seq<Triple>, groups: Groups,
                     occurrences: map<nat, nat>, p: Reification, q: Reification)
    requires Grouped(rs, m, order, groups) && DistinctOccurrences(rs) && p in rs && q in rs
    requires Lowering(m) && Coherent(rs, m)
    requires Settled(m, occurrences, groups[Key(m, p)]) && Settled(m, occurrences, groups[Key(m, q)])
    ensures SurvivorOf(occurrences, p) == SurvivorOf(occurrences, q) <==> Resolve(m, p.subject) == Resolve(m, q.subject)
  {
    var s := GroupSurvivor(rs, m, order, groups, occurrences, p);
    var t := GroupSurvivor(rs, m, order, groups, occurrences, q);
    if Resolve(m, p.subject) == Resolve(m, q.subject) {
      assert Key(m, p) == Key(m, q);
    }
  }

  /** What a class resolves to: with an IRI in it, to its first IRI by code points; without one but
      with a blank node, to its first blank node by label; and to a generated node only where it
      has nothing else, and then to the one with the first index. */
  ghost predicate FirstName(name: Term, other: Term)
  {
    match other
    case Iri(t) => name.Iri? && (name.value == t || TextBefore(name.value, t))
    case Blank(t) => name.Iri? || (name.Blank? && (name.name == t || TextBefore(name.name, t)))
    case Generated(j) =>
      name.Iri? || name.Blank? || (name.Generated? && (name.index == j || IndexBefore(name.index, j)))
    case Literal(_, _, _) => false
  }

  ghost predicate FirstNames(rs: seq<Reification>, m: Replacements)
  {
    forall p, q | p in rs && q in rs && Resolve(m, p.subject) == Resolve(m, q.subject) ::
      FirstName(Resolve(m, p.subject), q.subject)
  }

  lemma ResolvesToFirst(rs: seq<Reification>, m: Replacements)
    requires Lowering(m) && SubjectsAreResources(rs)
    ensures FirstNames(rs, m)
  {
    forall p, q | p in rs && q in rs && Resolve(m, p.subject) == Resolve(m, q.subject)
      ensures FirstName(Resolve(m, p.subject), q.subject)
    {
      ResolvesToLeast(m, p.subject, q.subject);
      LowerIffPrecedes(Resolve(m, p.subject), q.subject);
    }
  }

  /** The whole merge.  It refuses exactly the ambiguous inputs; otherwise it computes the least
      congruence, names every class by its first term and leaves one element of it. */
  method CoalesceReifications(rs: seq<Reification>) returns (ok: bool, m: Replacements, occurrences: map<nat, nat>)
    requires SubjectsAreResources(rs) && DistinctOccurrences(rs)
    ensures ok <==> Unambiguous(rs)
    ensures ok ==> Consistent(rs, m) && Closed(rs, m) && OneSurvivor(rs, m, occurrences)
    ensures ok ==> FirstNames(rs, m)
  {
    ok := CheckSubjects(rs);
    if !ok {
      return false, map[], map[];
    }
    m := ReplacementFixpoint(rs);
    ghost var order, groups;
    occurrences, order, groups := RedirectDuplicates(rs, m);
    SettledSurvivors(rs, m, order, groups, occurrences);
    ResolvesToFirst(rs, m);
  }
}
