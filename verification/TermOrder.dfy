/** The terms of reified triples and the order in which one of them is chosen for a class. */
module TermOrder {
  import opened Ordering
  import opened Varint

  // ----- Terms and their keys

  datatype Term =
    | Iri(value: string)
    | Blank(name: string)
    | Generated(index: nat)
    | Literal(lexical: string, datatypeIri: string, language: string)

  predicate IsResource(t: Term) { !t.Literal? }

  function Codes(s: string): seq<int>
  {
    if s == [] then [] else [s[0] as int] + Codes(s[1..])
  }

  function Fill(ds: seq<digit>): seq<digit>
    decreases 20 - |ds|
  {
    if |ds| < 20 then Fill([0] + ds) else ds
  }

  /** The decimal digits of a number, zero-filled to twenty places. */
  function ZeroFilled(n: nat): seq<digit> { Fill(Digits(n)) }

  /** IRIs first, then blank nodes by label, then generated nodes by zero-filled index. */
  function SortKey(t: Term): seq<int>
    requires IsResource(t)
  {
    match t
    case Iri(value) => [0] + Codes(value)
    case Blank(name) => [1] + Codes(name)
    case Generated(index) => [2] + ZeroFilled(index)
  }

  lemma {:induction false} FillDenotes(ds: seq<digit>)
    ensures DecValue(Fill(ds)) == DecValue(ds)
    decreases 20 - |ds|
  {
    if |ds| < 20 {
      FillDenotes([0] + ds);
      LeadingZeros([0] + ds, 1);
      assert ([0] + ds)[1..] == ds;
    }
  }

  lemma ZeroFilledDenotes(n: nat)
    ensures DecValue(ZeroFilled(n)) == n
  {
    DigitsDenote(n);
    FillDenotes(Digits(n));
  }

  lemma SortKeyInjective(a: Term, b: Term)
    requires IsResource(a) && IsResource(b) && SortKey(a) == SortKey(b)
    ensures a == b
  {
    assert SortKey(a)[0] == SortKey(b)[0];
    var x, y := SortKey(a)[1..], SortKey(b)[1..];
    match a {
      case Iri(s) => SameCodes(s, b.value);
      case Blank(s) => SameCodes(s, b.name);
      case Generated(m) =>
        assert x == ZeroFilled(m) && y == ZeroFilled(b.index);
        ZeroFilledDenotes(m);
        ZeroFilledDenotes(b.index);
    }
  }

  lemma {:induction false} SameCodes(s: string, t: string)
    requires Codes(s) == Codes(t)
    ensures s == t
  {
    if s == [] || t == [] {
      assert |Codes(s)| == |Codes(t)|;
    } else {
      assert Codes(s)[0] == Codes(t)[0] && Codes(s)[1..] == Codes(t)[1..];
      SameCodes(s[1..], t[1..]);
      assert s == [s[0]] + s[1..] && t == [t[0]] + t[1..];
    }
  }

  predicate Lower(a: Term, b: Term)
  {
    IsResource(a) && IsResource(b) && LexLess(SortKey(a), SortKey(b))
  }

  lemma LowerTransitive(a: Term, b: Term, c: Term)
    requires Lower(a, b) && Lower(b, c)
    ensures Lower(a, c)
  {
    LexTransitive(SortKey(a), SortKey(b), SortKey(c));
  }

  lemma LowerIrreflexive(a: Term)
    ensures !Lower(a, a)
  {
    if IsResource(a) { LexIrreflexive(SortKey(a)); }
  }

  lemma LowerTotal(a: Term, b: Term)
    requires IsResource(a) && IsResource(b)
    ensures Lower(a, b) || a == b || Lower(b, a)
  {
    LexTotal(SortKey(a), SortKey(b));
    if SortKey(a) == SortKey(b) { SortKeyInjective(a, b); }
  }

  // ----- The order without the keys

  /** The first place where two texts differ decides, and a text comes before its continuations. */
  ghost predicate TextBefore(s: string, t: string)
  {
    exists k: nat :: DiffersAt(s, t, k)
  }

  predicate DiffersAt(s: string, t: string, k: nat)
  {
    && k <= |s| && k < |t| && s[..k] == t[..k]
    && (k == |s| || s[k] as int < t[k] as int)
  }

  lemma {:induction false} CodesAt(s: string)
    ensures |Codes(s)| == |s| && forall i | 0 <= i < |s| :: Codes(s)[i] == s[i] as int
  {
    if s != [] {
      CodesAt(s[1..]);
    }
  }

  lemma {:induction false} CodesPrefix(s: string, t: string, k: nat)
    requires k <= |s| && k <= |t|
    ensures |Codes(s)| == |s| && |Codes(t)| == |t|
    ensures Codes(s)[..k] == Codes(t)[..k] <==> s[..k] == t[..k]
  {
    CodesAt(s);
    CodesAt(t);
    if Codes(s)[..k] == Codes(t)[..k] {
      forall i | 0 <= i < k
        ensures s[i] == t[i]
      {
        assert Codes(s)[..k][i] == Codes(t)[..k][i];
      }
    }
    if s[..k] == t[..k] {
      forall i | 0 <= i < k
        ensures Codes(s)[i] == Codes(t)[i]
      {
        assert s[..k][i] == t[..k][i];
      }
    }
  }

  lemma TextOrder(s: string, t: string)
    ensures LexLess(Codes(s), Codes(t)) <==> TextBefore(s, t)
  {
    CodesAt(s);
    CodesAt(t);
    LexByDifference(Codes(s), Codes(t));
    if k: nat :| LexDiffersAt(Codes(s), Codes(t), k) {
      CodesPrefix(s, t, k);
      assert DiffersAt(s, t, k);
    }
    if k: nat :| DiffersAt(s, t, k) {
      CodesPrefix(s, t, k);
      assert LexDiffersAt(Codes(s), Codes(t), k);
    }
  }

  function Pow10(k: nat): (p: nat)
    ensures p > 0
  {
    if k == 0 then 1 else 10 * Pow10(k - 1)
  }

  /** The number of decimal places a generated index is written with. */
  function Places(n: nat): nat
  {
    if n < Pow10(20) then 20 else 1 + Places(n / 10)
  }

  lemma {:induction false} DigitCount(n: nat, k: nat)
    requires k > 0
    ensures |Digits(n)| <= k <==> n < Pow10(k)
    decreases k
  {
    if k == 1 {
      assert Pow10(1) == 10 * Pow10(0);
    } else if n >= 10 {
      DigitCount(n / 10, k - 1);
    } else {
      DigitCount(0, k - 1);
    }
  }

  lemma {:induction false} FillLength(ds: seq<digit>)
    ensures |Fill(ds)| == if |ds| < 20 then 20 else |ds|
    decreases 20 - |ds|
  {
    if |ds| < 20 {
      FillLength([0] + ds);
    }
  }

  lemma {:induction false} FilledPlaces(n: nat)
    ensures |ZeroFilled(n)| == Places(n)
  {
    FillLength(Digits(n));
    DigitCount(n, 20);
    if n >= Pow10(20) {
      FilledPlaces(n / 10);
      FillLength(Digits(n / 10));
      DigitCount(n, 20);
    }
  }

  lemma {:induction false} DigitsOrder(x: seq<digit>, y: seq<digit>)
    requires |x| == |y|
    ensures LexLess(x, y) <==> DecValue(x) < DecValue(y)
    ensures x == y <==> DecValue(x) == DecValue(y)
    decreases |x|
  {
    if x != [] {
      var n := |x| - 1;
      DigitsOrder(x[..n], y[..n]);
      LexTuple(x[..n], y[..n], [x[n]], [y[n]]);
      assert x == x[..n] + [x[n]] && y == y[..n] + [y[n]];
      assert LexLess([x[n]], [y[n]]) <==> x[n] < y[n];
    }
  }

  /** The number without its last k digits. */
  function Without(n: nat, k: nat): nat
    decreases k
  {
    if k == 0 then n else Without(n / 10, k - 1)
  }

  lemma {:induction false} LeadingDigits(x: seq<digit>, k: nat)
    requires k <= |x|
    ensures DecValue(x[..k]) == Without(DecValue(x), |x| - k)
    decreases |x|
  {
    if k == |x| {
      assert x[..k] == x;
    } else {
      var n := |x| - 1;
      LeadingDigits(x[..n], k);
      assert x[..n][..k] == x[..k];
    }
  }

  /** Indices are compared by their digits: as numbers where both have as many places, and up to
      the places of the shorter one otherwise. */
  predicate IndexBefore(i: nat, j: nat)
  {
    var v, w := Places(i), Places(j);
    if v == w then i < j
    else if v < w then i <= Without(j, w - v)
    else Without(i, v - w) < j
  }

  /** A list is compared with a longer one through its beginning. */
  lemma LexShorter(x: seq<int>, y: seq<int>)
    requires |x| <= |y|
    ensures LexLess(x, y) <==> LexLess(x, y[..|x|]) || (x == y[..|x|] && |x| < |y|)
  {
    LexTuple(x, y[..|x|], [], y[|x|..]);
    assert x + [] == x && y[..|x|] + y[|x|..] == y;
  }

  lemma LexLonger(x: seq<int>, y: seq<int>)
    requires |x| <= |y|
    ensures LexLess(y, x) <==> LexLess(y[..|x|], x)
  {
    LexTuple(y[..|x|], x, y[|x|..], []);
    assert x + [] == x && y[..|x|] + y[|x|..] == y;
  }

  lemma {:induction false} DigitsShorter(x: seq<digit>, y: seq<digit>, front: seq<digit>)
    requires |x| <= |y| && front == y[..|x|]
    ensures LexLess(x, y) <==>
            if |x| == |y| then DecValue(x) < DecValue(y) else DecValue(x) <= Without(DecValue(y), |y| - |x|)
  {
    LexShorter(x, y);
    DigitsOrder(x, front);
    LeadingDigits(y, |x|);
  }

  lemma {:induction false} DigitsLonger(x: seq<digit>, y: seq<digit>, front: seq<digit>)
    requires |x| <= |y| && front == y[..|x|]
    ensures LexLess(y, x) <==> Without(DecValue(y), |y| - |x|) < DecValue(x)
  {
    LexLonger(x, y);
    DigitsOrder(front, x);
    LeadingDigits(y, |x|);
  }

  lemma {:induction false} DigitsBefore(x: seq<digit>, y: seq<digit>, i: nat, j: nat)
    requires DecValue(x) == i && |x| == Places(i) && DecValue(y) == j && |y| == Places(j)
    ensures LexLess(x, y) <==> IndexBefore(i, j)
  {
    if |x| <= |y| {
      DigitsShorter(x, y, y[..|x|]);
    } else {
      DigitsLonger(y, x, x[..|y|]);
    }
  }

  lemma IndexOrder(i: nat, j: nat)
    ensures LexLess(ZeroFilled(i), ZeroFilled(j)) <==> IndexBefore(i, j)
  {
    FilledPlaces(i);
    FilledPlaces(j);
    ZeroFilledDenotes(i);
    ZeroFilledDenotes(j);
    DigitsBefore(ZeroFilled(i), ZeroFilled(j), i, j);
  }

  /** The order of resources: IRIs before blank nodes before generated nodes, IRIs and labels by
      their code points, and generated nodes by their indices. */
  ghost predicate Precedes(a: Term, b: Term)
  {
    match (a, b)
    case (Iri(s), Iri(t)) => TextBefore(s, t)
    case (Iri(_), Blank(_)) => true
    case (Iri(_), Generated(_)) => true
    case (Blank(s), Blank(t)) => TextBefore(s, t)
    case (Blank(_), Generated(_)) => true
    case (Generated(i), Generated(j)) => IndexBefore(i, j)
    case _ => false
  }

  lemma RankFirst(x: int, y: int, s: seq<int>, t: seq<int>)
    ensures LexLess([x] + s, [y] + t) <==> x < y || (x == y && LexLess(s, t))
  {
    LexTuple([x], [y], s, t);
  }

  /** The keys order resources in just this way. */
  lemma LowerIffPrecedes(a: Term, b: Term)
    ensures Lower(a, b) <==> Precedes(a, b)
  {
    if IsResource(a) && IsResource(b) {
      RankFirst(SortKey(a)[0], SortKey(b)[0], SortKey(a)[1..], SortKey(b)[1..]);
      assert SortKey(a) == [SortKey(a)[0]] + SortKey(a)[1..] && SortKey(b) == [SortKey(b)[0]] + SortKey(b)[1..];
      match (a, b) {
        case (Iri(s), Iri(t)) => TextOrder(s, t);
        case (Blank(s), Blank(t)) => TextOrder(s, t);
        case (Generated(i), Generated(j)) => IndexOrder(i, j);
        case _ =>
      }
    }
  }

  /** Indices below 10^20 are ordered as numbers. */
  lemma SmallIndices(i: nat, j: nat)
    requires i < Pow10(20) && j < Pow10(20)
    ensures Lower(Generated(i), Generated(j)) <==> i < j
  {
    LowerIffPrecedes(Generated(i), Generated(j));
  }

  /** From there on they need not be: 10^20 comes before 2 * 10^19. */
  lemma LargeIndices()
    ensures Lower(Generated(Pow10(20)), Generated(2 * Pow10(19)))
  {
    var i, j := Pow10(20), 2 * Pow10(19);
    assert Pow10(20) == 10 * Pow10(19) && Places(j) == 20 && Places(i / 10) == 20 && Places(i) == 21;
    assert Without(i, 1) == Without(i / 10, 0);
    LowerIffPrecedes(Generated(i), Generated(j));
  }
}
