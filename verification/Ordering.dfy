/** Byte strings, the lexicographic order every canonical table is sorted by, and the
    sort/deduplicate steps the tables are built with.

    Each ordered entity is compared through a key of type `seq<int>`: a byte string is its own
    key, and a tuple of fixed-width parts is compared through the concatenation of the parts. */
module Ordering {

  type byte = x: int | 0 <= x < 256
  type Bytes = seq<byte>

  // The numbers of values of machine words; platform words have 64 bits.
  const U16: nat := 0x1_0000
  const U32: nat := 0x1_0000_0000
  const U64: nat := 0x1_0000_0000_0000_0000

  /** A byte string is its own order key. */
  function ByteOrder(bs: Bytes): seq<int> { bs }

  datatype Option<+T> = None | Some(value: T)

  datatype Result<+T, +E> = Ok(value: T) | Err(error: E)

  // Sequences taken apart, as lemmas so that callers need not compare sequences element by element.

  lemma AppendFront<T>(s: seq<T>, x: T)
    ensures (s + [x])[..|s|] == s
  {
  }

  lemma TakeNext<T>(s: seq<T>, i: nat)
    requires i < |s|
    ensures s[..i + 1] == s[..i] + [s[i]] && s[..i + 1][..i] == s[..i]
  {
  }

  lemma SplitRejoin<T>(s: seq<T>, i: nat)
    requires i <= |s|
    ensures s[..i] + s[i..] == s
  {
  }

  lemma TakeAll<T>(s: seq<T>)
    ensures s[..|s|] == s
  {
  }

  lemma Concat(a: Bytes, b: Bytes, c: Bytes)
    ensures (a + b) + c == a + (b + c)
  {
  }

  /** `part` occurs in `data` at `offset`. */
  ghost predicate At(data: Bytes, offset: nat, part: Bytes)
    decreases |part|
  {
    offset <= |data| && (part != [] ==> offset < |data| && data[offset] == part[0] && At(data, offset + 1, part[1..]))
  }

  lemma {:induction false} AtSlice(data: Bytes, offset: nat, part: Bytes)
    ensures At(data, offset, part) <==> offset + |part| <= |data| && data[offset..offset + |part|] == part
    decreases |part|
  {
    if part != [] {
      AtSlice(data, offset + 1, part[1..]);
      if offset + |part| <= |data| {
        assert data[offset..offset + |part|] == [data[offset]] + data[offset + 1..offset + |part|];
      }
    }
  }

  lemma {:induction false} AtSplit(data: Bytes, offset: nat, a: Bytes, b: Bytes)
    ensures At(data, offset, a + b) <==> At(data, offset, a) && At(data, offset + |a|, b)
    decreases |a|
  {
    if a == [] {
      assert a + b == b;
    } else {
      assert (a + b)[1..] == a[1..] + b;
      AtSplit(data, offset + 1, a[1..], b);
    }
  }

  lemma AtMiddle(a: Bytes, b: Bytes, c: Bytes)
    ensures At(a + b + c, |a|, b)
  {
    AtSlice(a + b + c, |a|, b);
  }

  predicate LexLess(a: seq<int>, b: seq<int>)
  {
    b != [] && (a == [] || a[0] < b[0] || (a[0] == b[0] && LexLess(a[1..], b[1..])))
  }

  /** At place k the two lists differ for the first time, and the first is smaller or ends there. */
  predicate LexDiffersAt(a: seq<int>, b: seq<int>, k: nat)
  {
    && k <= |a| && k < |b| && a[..k] == b[..k]
    && (k == |a| || a[k] < b[k])
  }

  /** The first difference decides, and a prefix comes first. */
  ghost predicate Before(a: seq<int>, b: seq<int>)
  {
    exists k: nat :: LexDiffersAt(a, b, k)
  }

  /** This is the order of byte strings. */
  lemma {:induction false} LexByDifference(a: seq<int>, b: seq<int>)
    ensures LexLess(a, b) <==> Before(a, b)
  {
    if b == [] {
    } else if a == [] || a[0] < b[0] {
      assert LexDiffersAt(a, b, 0);
    } else {
      LexByDifference(a[1..], b[1..]);
      if a[0] == b[0] {
        if k: nat :| LexDiffersAt(a[1..], b[1..], k) {
          assert a[..k + 1] == [a[0]] + a[1..][..k] && b[..k + 1] == [b[0]] + b[1..][..k];
          assert LexDiffersAt(a, b, k + 1);
        }
      }
      if k: nat :| LexDiffersAt(a, b, k) {
        assert k > 0 && a[0] == a[..k][0] == b[..k][0] == b[0];
        assert a[1..][..k - 1] == a[..k][1..] && b[1..][..k - 1] == b[..k][1..];
        assert LexDiffersAt(a[1..], b[1..], k - 1);
      }
    }
  }

  lemma {:induction false} LexTotal(a: seq<int>, b: seq<int>)
    ensures LexLess(a, b) || a == b || LexLess(b, a)
  {
    if a != [] && b != [] && a[0] == b[0] {
      LexTotal(a[1..], b[1..]);
      assert a == [a[0]] + a[1..] && b == [b[0]] + b[1..];
    }
  }

  lemma {:induction false} LexTransitive(a: seq<int>, b: seq<int>, c: seq<int>)
    requires LexLess(a, b) && LexLess(b, c)
    ensures LexLess(a, c)
  {
    if a != [] && a[0] == b[0] == c[0] {
      LexTransitive(a[1..], b[1..], c[1..]);
    }
  }

  lemma {:induction false} LexIrreflexive(a: seq<int>)
    ensures !LexLess(a, a)
  {
    if a != [] {
      LexIrreflexive(a[1..]);
    }
  }

  lemma LexAsymmetric(a: seq<int>, b: seq<int>)
    requires LexLess(a, b)
    ensures !LexLess(b, a) && a != b
  {
    LexIrreflexive(a);
    if LexLess(b, a) {
      LexTransitive(a, b, a);
    }
  }

  /** `!LexLess(b, a)` reads `a <= b`; chaining it is transitive. */
  lemma LexLeqTransitive(a: seq<int>, b: seq<int>, c: seq<int>)
    requires !LexLess(b, a) && !LexLess(c, b)
    ensures !LexLess(c, a)
  {
    LexTotal(a, b);
    LexTotal(b, c);
    if LexLess(c, a) {
      if a != b { LexTransitive(c, a, b); }
    }
  }

  /** Comparing parts of equal width one after the other is comparing their concatenations, so
      tuple orders are orders of concatenated keys. */
  lemma {:induction false} LexTuple(a: seq<int>, b: seq<int>, x: seq<int>, y: seq<int>)
    requires |a| == |b|
    ensures LexLess(a + x, b + y) <==> LexLess(a, b) || (a == b && LexLess(x, y))
  {
    if a == [] {
      assert a + x == x && b + y == y;
    } else {
      LexTuple(a[1..], b[1..], x, y);
      assert (a + x)[1..] == a[1..] + x && (b + y)[1..] == b[1..] + y;
      assert a == [a[0]] + a[1..] && b == [b[0]] + b[1..];
    }
  }

  ghost predicate SortedBy<T>(xs: seq<T>, key: T -> seq<int>)
  {
    forall i, j | 0 <= i < j < |xs| :: !LexLess(key(xs[j]), key(xs[i]))
  }

  ghost predicate Ascending<T>(xs: seq<T>, key: T -> seq<int>)
  {
    forall i, j | 0 <= i < j < |xs| :: LexLess(key(xs[i]), key(xs[j]))
  }

  ghost function Elements<T>(xs: seq<T>): set<T>
  {
    set x | x in xs
  }

  function Identity(x: seq<int>): seq<int> { x }

  /** Any sort: which of several equal-key arrangements comes out is not promised. */
  method Sort<T>(xs: seq<T>, key: T -> seq<int>) returns (ys: seq<T>)
    ensures multiset(ys) == multiset(xs)
    ensures SortedBy(ys, key)
  {
    ys := [];
    for n := 0 to |xs|
      invariant multiset(ys) == multiset(xs[..n])
      invariant SortedBy(ys, key)
    {
      var i := InsertionPoint(ys, key, xs[n]);
      InsertSorted(ys, key, xs[n], i);
      InsertMultiset(ys, xs[n], i);
      assert xs[..n + 1] == xs[..n] + [xs[n]];
      ys := ys[..i] + [xs[n]] + ys[i..];
    }
    assert xs[..|xs|] == xs;
  }

  method InsertionPoint<T>(ys: seq<T>, key: T -> seq<int>, x: T) returns (i: nat)
    ensures i <= |ys| && (i > 0 ==> !LexLess(key(x), key(ys[i - 1])))
    ensures forall j | i <= j < |ys| :: LexLess(key(x), key(ys[j]))
  {
    i := |ys|;
    while i > 0 && LexLess(key(x), key(ys[i - 1]))
      invariant i <= |ys|
      invariant forall j | i <= j < |ys| :: LexLess(key(x), key(ys[j]))
    {
      i := i - 1;
    }
  }

  lemma InsertMultiset<T>(ys: seq<T>, x: T, i: nat)
    requires i <= |ys|
    ensures multiset(ys[..i] + [x] + ys[i..]) == multiset(ys) + multiset{x}
  {
    assert ys == ys[..i] + ys[i..];
  }

  lemma InsertSorted<T>(ys: seq<T>, key: T -> seq<int>, x: T, i: nat)
    requires SortedBy(ys, key) && i <= |ys|
    requires i > 0 ==> !LexLess(key(x), key(ys[i - 1]))
    requires forall j | i <= j < |ys| :: LexLess(key(x), key(ys[j]))
    ensures SortedBy(ys[..i] + [x] + ys[i..], key)
  {
    var zs := ys[..i] + [x] + ys[i..];
    forall a, b | 0 <= a < b < |zs|
      ensures !LexLess(key(zs[b]), key(zs[a]))
    {
      if b == i {
        if a < i - 1 { LexLeqTransitive(key(ys[a]), key(ys[i - 1]), key(x)); }
      } else if a == i {
        LexAsymmetric(key(x), key(ys[b - 1]));
      }
    }
  }

  lemma RemoveMultiset<T>(ys: seq<T>, i: nat)
    requires i < |ys|
    ensures multiset(ys[..i] + ys[i + 1..]) == multiset(ys) - multiset{ys[i]}
  {
    assert ys == ys[..i] + [ys[i]] + ys[i + 1..];
  }

  lemma PermutationElements<T>(xs: seq<T>, ys: seq<T>)
    requires multiset(xs) == multiset(ys)
    ensures |xs| == |ys|
    ensures forall x :: x in xs <==> x in ys
    ensures Elements(xs) == Elements(ys)
  {
    assert |multiset(xs)| == |multiset(ys)|;
    forall x
      ensures x in xs <==> x in ys
    {
      assert x in xs <==> x in multiset(xs);
      assert x in ys <==> x in multiset(ys);
    }
  }

  /** Drops every element whose key equals that of its retained predecessor. */
  function DedupBy<T>(xs: seq<T>, key: T -> seq<int>): seq<T>
  {
    if |xs| < 2 then xs
    else
      var front := DedupBy(xs[..|xs| - 1], key);
      var x := xs[|xs| - 1];
      if front != [] && key(front[|front| - 1]) == key(x) then front else front + [x]
  }

  /** A sorted list deduplicated by key is strictly ascending and loses no key. */
  lemma {:induction false} DedupAscending<T>(xs: seq<T>, key: T -> seq<int>)
    requires SortedBy(xs, key)
    ensures var ys := DedupBy(xs, key);
      && Ascending(ys, key)
      && |ys| <= |xs|
      && (xs != [] ==> ys != [] && key(ys[|ys| - 1]) == key(xs[|xs| - 1]))
  {
    if |xs| >= 2 {
      var init, x := xs[..|xs| - 1], xs[|xs| - 1];
      DedupAscending(init, key);
      var front := DedupBy(init, key);
      var last := front[|front| - 1];
      if key(last) != key(x) {
        LexTotal(key(last), key(x));
        assert key(last) == key(xs[|xs| - 2]);
        forall i | 0 <= i < |front|
          ensures LexLess(key(front[i]), key(x))
        {
          if i < |front| - 1 { LexTransitive(key(front[i]), key(last), key(x)); }
        }
      }
    }
  }

  ghost predicate HasKey<T>(xs: seq<T>, key: T -> seq<int>, k: seq<int>)
  {
    exists i :: 0 <= i < |xs| && key(xs[i]) == k
  }

  lemma {:induction false} DedupKeys<T>(xs: seq<T>, key: T -> seq<int>)
    ensures forall i | 0 <= i < |xs| :: HasKey(DedupBy(xs, key), key, key(xs[i]))
  {
    if |xs| >= 2 {
      var init, x := xs[..|xs| - 1], xs[|xs| - 1];
      DedupKeys(init, key);
      var front, ys := DedupBy(init, key), DedupBy(xs, key);
      forall i | 0 <= i < |xs|
        ensures HasKey(ys, key, key(xs[i]))
      {
        if i < |init| {
          assert xs[i] == init[i] && HasKey(front, key, key(init[i]));
          var j :| 0 <= j < |front| && key(front[j]) == key(xs[i]);
          assert ys[j] == front[j];
        } else {
          assert key(ys[|ys| - 1]) == key(x);
        }
      }
    }
  }

  lemma {:induction false} DedupMembers<T>(xs: seq<T>, key: T -> seq<int>)
    ensures forall y | y in DedupBy(xs, key) :: y in xs
  {
    if |xs| >= 2 {
      DedupMembers(xs[..|xs| - 1], key);
    }
  }

  /** Two keys tell the same members apart. */
  ghost predicate TellAlike<T>(xs: seq<T>, key: T -> seq<int>, other: T -> seq<int>)
  {
    forall x, y | x in xs && y in xs :: key(x) == key(y) <==> other(x) == other(y)
  }

  lemma {:induction false} DedupAlike<T>(xs: seq<T>, key: T -> seq<int>, other: T -> seq<int>)
    requires TellAlike(xs, key, other)
    ensures DedupBy(xs, key) == DedupBy(xs, other)
  {
    if |xs| >= 2 {
      var init, last := xs[..|xs| - 1], xs[|xs| - 1];
      DedupAlike(init, key, other);
      DedupMembers(init, key);
      var front := DedupBy(init, key);
      assert front != [] ==> front[|front| - 1] in init;
    }
  }

  /** Where the key tells members apart, deduplication keeps exactly the same elements. */
  lemma DedupElements<T>(xs: seq<T>, key: T -> seq<int>)
    requires SortedBy(xs, key)
    requires forall x, y | x in xs && y in xs && key(x) == key(y) :: x == y
    ensures Ascending(DedupBy(xs, key), key)
    ensures forall x :: x in DedupBy(xs, key) <==> x in xs
  {
    DedupAscending(xs, key);
    DedupKeys(xs, key);
    DedupMembers(xs, key);
    forall x | x in xs
      ensures x in DedupBy(xs, key)
    {
      var i :| 0 <= i < |xs| && xs[i] == x;
      assert HasKey(DedupBy(xs, key), key, key(xs[i]));
    }
  }

  /** A strictly ascending list is determined by its elements: this is what makes every
      canonical table independent of the order its rows arrived in. */
  lemma {:induction false} AscendingUnique<T>(xs: seq<T>, ys: seq<T>, key: T -> seq<int>)
    requires Ascending(xs, key) && Ascending(ys, key)
    requires forall x :: x in xs <==> x in ys
    ensures xs == ys
  {
    SomeElement(ys);
    if xs != [] {
      assert xs[0] in ys && (ys != [] ==> ys[0] in xs);
      var j :| 0 <= j < |ys| && ys[j] == xs[0];
      var i :| 0 <= i < |xs| && xs[i] == ys[0];
      if j > 0 {
        LexAsymmetric(key(ys[0]), key(xs[0]));
        assert false;
      }
      AscendingDistinct(xs, key);
      AscendingDistinct(ys, key);
      forall x
        ensures x in xs[1..] <==> x in ys[1..]
      {
        if x in xs[1..] { assert x in xs && x != xs[0]; assert x in ys; }
        if x in ys[1..] { assert x in ys && x != ys[0]; assert x in xs; }
      }
      AscendingUnique(xs[1..], ys[1..], key);
      assert xs == [xs[0]] + xs[1..] && ys == [ys[0]] + ys[1..];
    }
  }

  lemma SomeElement<T>(xs: seq<T>)
    ensures xs == [] || exists x :: x in xs
  {
    if xs != [] { assert xs[0] in xs; }
  }

  lemma {:induction false} DistinctCardinality<T>(xs: seq<T>)
    requires Distinct(xs)
    ensures |Elements(xs)| == |xs|
  {
    if xs != [] {
      var init, last := xs[..|xs| - 1], xs[|xs| - 1];
      DistinctCardinality(init);
      assert last !in init;
      assert Elements(xs) == Elements(init) + {last};
    }
  }

  ghost predicate Distinct<T>(xs: seq<T>)
  {
    forall i, j | 0 <= i < j < |xs| :: xs[i] != xs[j]
  }

  lemma {:induction false} CardinalityDistinct<T>(xs: seq<T>)
    ensures |Elements(xs)| <= |xs|
    ensures |Elements(xs)| == |xs| ==> Distinct(xs)
  {
    if xs != [] {
      var init, last := xs[..|xs| - 1], xs[|xs| - 1];
      CardinalityDistinct(init);
      assert Elements(xs) == Elements(init) + {last};
      if last in init {
        assert Elements(xs) == Elements(init);
      }
    }
  }

  lemma PermutationDistinct<T>(xs: seq<T>, ys: seq<T>)
    requires multiset(xs) == multiset(ys) && Distinct(xs)
    ensures Distinct(ys)
  {
    PermutationElements(xs, ys);
    DistinctCardinality(xs);
    CardinalityDistinct(ys);
  }

  lemma Singleton<T>(s: set<T>, a: T, b: T)
    requires |s| == 1 && a in s && b in s
    ensures a == b
  {
    var rest := s - {a};
    assert s == rest + {a};
    assert |rest| == 0;
  }

  lemma AscendingDistinct<T>(xs: seq<T>, key: T -> seq<int>)
    requires Ascending(xs, key)
    ensures forall i, j | 0 <= i < j < |xs| :: xs[i] != xs[j] && key(xs[i]) != key(xs[j])
  {
    forall i, j | 0 <= i < j < |xs|
      ensures xs[i] != xs[j] && key(xs[i]) != key(xs[j])
    {
      LexIrreflexive(key(xs[i]));
    }
  }

  /** Two sorted arrangements of the same rows agree when the key tells rows apart. */
  lemma SortedDistinctAscending<T>(xs: seq<T>, key: T -> seq<int>)
    requires SortedBy(xs, key)
    requires forall i, j | 0 <= i < j < |xs| :: key(xs[i]) != key(xs[j])
    ensures Ascending(xs, key)
  {
    forall i, j | 0 <= i < j < |xs|
      ensures LexLess(key(xs[i]), key(xs[j]))
    {
      LexTotal(key(xs[i]), key(xs[j]));
    }
  }
}
