/** How sections lie in an image: apart from each other, with zeros between them. */
module WireTiling {
  import opened Ordering
  import opened FixedWidth
  import opened WireImage

  // ----- Padding

  /** The next multiple of eight. */
  function Align(n: nat): nat { (n + 7) / 8 * 8 }

  predicate AllZero(data: Bytes, from: nat, to: nat)
    decreases if from < to then to - from else 0, |data|
  {
    from >= to || from >= |data| || (data[from] == 0 && AllZero(data, from + 1, to))
  }

  lemma {:induction false} ZerosAt(data: Bytes, from: nat, to: nat)
    requires from <= to <= |data|
    ensures AllZero(data, from, to) <==> At(data, from, Zeros(to - from))
    decreases if from < to then to - from else 0
  {
    if from < to {
      ZerosAt(data, from + 1, to);
      assert Zeros(to - from)[1..] == Zeros(to - (from + 1));
    }
  }

  lemma {:induction false} ZeroBetween(data: Bytes, from: nat, to: nat, p: nat)
    requires AllZero(data, from, to) && from <= p < to && p < |data|
    ensures data[p] == 0
    decreases if from < to then to - from else 0
  {
    if from < p {
      ZeroBetween(data, from + 1, to, p);
    }
  }

  // ----- Sections apart from each other

  function End(e: Entry): nat { e.offset + e.stored }

  /** The order of sections: by offset, and by kind where offsets are equal. */
  function Order(e: Entry): seq<int> { [e.offset, e.kind] }

  predicate Sooner(x: Entry, y: Entry)
  {
    x.offset < y.offset || (x.offset == y.offset && x.kind < y.kind)
  }

  ghost predicate Covered(entries: seq<Entry>, p: nat)
  {
    exists e | e in entries :: e.offset <= p < End(e)
  }

  ghost predicate Inside(data: Bytes, start: nat, entries: seq<Entry>)
  {
    forall e | e in entries :: start <= e.offset && End(e) <= |data|
  }

  /** Each section ends before any later one starts, in the order of offsets and kinds.  So no two
      share a byte; and an empty section neither lies inside another nor starts where a nonempty
      section of lower kind does. */
  ghost predicate Apart(entries: seq<Entry>)
  {
    forall x, y | x in entries && y in entries && Sooner(x, y) :: End(x) <= y.offset
  }

  ghost predicate OtherwiseZero(data: Bytes, start: nat, entries: seq<Entry>)
  {
    forall p: nat | start <= p < |data| :: data[p] == 0 || Covered(entries, p)
  }

  ghost predicate Reaches(data: Bytes, start: nat, entries: seq<Entry>)
  {
    if entries == [] then start == |data| else exists e | e in entries :: End(e) == |data|
  }

  /** The sections lie within the data and apart from each other; all other bytes behind the directory are
      zero, and the data ends with a section. */
  ghost predicate Tiled(data: Bytes, start: nat, entries: seq<Entry>)
  {
    && Inside(data, start, entries) && Apart(entries)
    && OtherwiseZero(data, start, entries) && Reaches(data, start, entries)
  }

  // ----- The chain of sections

  /** Each section starts where the one before it ended, or after zeros, and the last ends the data. */
  predicate Chain(data: Bytes, cursor: nat, ordered: seq<Entry>)
    decreases |ordered|
  {
    if ordered == [] then cursor == |data|
    else
      && cursor <= ordered[0].offset
      && AllZero(data, cursor, ordered[0].offset)
      && Chain(data, End(ordered[0]), ordered[1..])
  }

  lemma {:induction false} ChainEnds(data: Bytes, cursor: nat, ordered: seq<Entry>)
    requires Chain(data, cursor, ordered)
    ensures cursor <= |data| && Reaches(data, cursor, ordered)
    decreases |ordered|
  {
    if ordered != [] {
      ChainEnds(data, End(ordered[0]), ordered[1..]);
      assert ordered[0] in ordered;
      if ordered[1..] != [] {
        var e :| e in ordered[1..] && End(e) == |data|;
        assert e in ordered;
      }
    }
  }

  lemma {:induction false} ChainInside(data: Bytes, cursor: nat, ordered: seq<Entry>)
    requires Chain(data, cursor, ordered)
    ensures Inside(data, cursor, ordered)
    decreases |ordered|
  {
    if ordered != [] {
      ChainInside(data, End(ordered[0]), ordered[1..]);
      ChainEnds(data, End(ordered[0]), ordered[1..]);
      forall e | e in ordered
        ensures cursor <= e.offset && End(e) <= |data|
      {
        assert e == ordered[0] || e in ordered[1..];
      }
    }
  }

  lemma {:induction false} ChainApart(data: Bytes, cursor: nat, ordered: seq<Entry>)
    requires Chain(data, cursor, ordered) && Ascending(ordered, Order)
    ensures Apart(ordered)
    decreases |ordered|
  {
    if ordered != [] {
      var first, rest := ordered[0], ordered[1..];
      ChainApart(data, End(first), rest);
      ChainInside(data, End(first), rest);
      forall x, y | x in ordered && y in ordered && Sooner(x, y)
        ensures End(x) <= y.offset
      {
        if y == first && x != first {
          FirstIsFirst(ordered, x);
        }
        assert (x == first || x in rest) && (y == first || y in rest);
      }
    }
  }

  lemma FirstIsFirst(ordered: seq<Entry>, x: Entry)
    requires Ascending(ordered, Order) && x in ordered && x != ordered[0]
    ensures Sooner(ordered[0], x)
  {
    var i :| 0 <= i < |ordered| && ordered[i] == x;
    assert LexLess(Order(ordered[0]), Order(ordered[i]));
    PairLess(ordered[0].offset, ordered[0].kind, x.offset, x.kind);
  }

  lemma PairLess(a: int, b: int, c: int, d: int)
    ensures LexLess([a, b], [c, d]) <==> a < c || (a == c && b < d)
  {
    LexTuple([a], [c], [b], [d]);
    assert [a] + [b] == [a, b] && [c] + [d] == [c, d];
  }

  lemma {:induction false} ChainZero(data: Bytes, cursor: nat, ordered: seq<Entry>, p: nat)
    requires Chain(data, cursor, ordered) && cursor <= p < |data|
    ensures data[p] == 0 || Covered(ordered, p)
    decreases |ordered|
  {
    var first := ordered[0];
    assert first in ordered;
    if p < first.offset {
      ZeroBetween(data, cursor, first.offset, p);
    } else if End(first) <= p {
      ChainZero(data, End(first), ordered[1..], p);
      if Covered(ordered[1..], p) {
        var e :| e in ordered[1..] && e.offset <= p < End(e);
        assert e in ordered;
      }
    }
  }

  lemma ChainTiles(data: Bytes, start: nat, ordered: seq<Entry>)
    requires Chain(data, start, ordered) && Ascending(ordered, Order)
    ensures Tiled(data, start, ordered)
  {
    ChainInside(data, start, ordered);
    ChainApart(data, start, ordered);
    ChainEnds(data, start, ordered);
    forall p: nat | start <= p < |data|
      ensures data[p] == 0 || Covered(ordered, p)
    {
      ChainZero(data, start, ordered, p);
    }
  }

  // ----- Tiled sections form a chain

  lemma {:induction false} ZeroUpTo(data: Bytes, from: nat, to: nat)
    requires to <= |data| && forall p: nat | from <= p < to :: data[p] == 0
    ensures AllZero(data, from, to)
    decreases if from < to then to - from else 0
  {
    if from < to {
      ZeroUpTo(data, from + 1, to);
    }
  }

  lemma FirstGap(data: Bytes, cursor: nat, ordered: seq<Entry>)
    requires Inside(data, cursor, ordered) && OtherwiseZero(data, cursor, ordered)
    requires Ascending(ordered, Order) && ordered != []
    ensures AllZero(data, cursor, ordered[0].offset)
  {
    var first := ordered[0];
    assert first in ordered;
    forall p: nat | cursor <= p < first.offset
      ensures data[p] == 0
    {
      if Covered(ordered, p) {
        var e :| e in ordered && e.offset <= p < End(e);
        FirstIsFirst(ordered, e);
      }
    }
    ZeroUpTo(data, cursor, first.offset);
  }

  lemma RestReaches(data: Bytes, cursor: nat, ordered: seq<Entry>)
    requires Inside(data, cursor, ordered) && Reaches(data, cursor, ordered) && ordered != []
    requires Inside(data, End(ordered[0]), ordered[1..])
    ensures Reaches(data, End(ordered[0]), ordered[1..])
  {
    var first, rest := ordered[0], ordered[1..];
    var e :| e in ordered && End(e) == |data|;
    if rest != [] {
      assert rest[0] in rest;
      assert e == first || e in rest;
    }
  }

  lemma RestTiled(data: Bytes, cursor: nat, ordered: seq<Entry>)
    requires Tiled(data, cursor, ordered) && Ascending(ordered, Order) && ordered != []
    ensures Tiled(data, End(ordered[0]), ordered[1..]) && Ascending(ordered[1..], Order)
  {
    var first, rest := ordered[0], ordered[1..];
    assert first in ordered;
    AscendingDistinct(ordered, Order);
    assert Ascending(rest, Order);
    forall e | e in rest
      ensures e in ordered && End(first) <= e.offset && End(e) <= |data|
    {
      FirstIsFirst(ordered, e);
    }
    RestReaches(data, cursor, ordered);
    forall p: nat | End(first) <= p < |data|
      ensures data[p] == 0 || Covered(rest, p)
    {
      if Covered(ordered, p) {
        var e :| e in ordered && e.offset <= p < End(e);
        assert e in rest;
      }
    }
  }

  lemma {:induction false} TiledChains(data: Bytes, cursor: nat, ordered: seq<Entry>)
    requires Tiled(data, cursor, ordered) && Ascending(ordered, Order)
    ensures Chain(data, cursor, ordered)
    decreases |ordered|
  {
    if ordered != [] {
      assert ordered[0] in ordered;
      FirstGap(data, cursor, ordered);
      RestTiled(data, cursor, ordered);
      TiledChains(data, End(ordered[0]), ordered[1..]);
    }
  }

  // ----- The check

  ghost predicate KindsDiffer(entries: seq<Entry>)
  {
    forall i, j | 0 <= i < j < |entries| :: entries[i].kind != entries[j].kind
  }

  lemma KindsDifferPermuted(entries: seq<Entry>, ordered: seq<Entry>)
    requires KindsDiffer(entries) && multiset(ordered) == multiset(entries) && SortedBy(ordered, Order)
    ensures Ascending(ordered, Order)
  {
    PermutationElements(ordered, entries);
    assert Distinct(entries);
    PermutationDistinct(entries, ordered);
    forall i, j | 0 <= i < j < |ordered|
      ensures Order(ordered[i]) != Order(ordered[j])
    {
      assert ordered[i] in entries && ordered[j] in entries;
      assert Order(ordered[i])[1] == ordered[i].kind && Order(ordered[j])[1] == ordered[j].kind;
    }
    SortedDistinctAscending(ordered, Order);
  }

  lemma SameTiling(data: Bytes, start: nat, xs: seq<Entry>, ys: seq<Entry>)
    requires forall e :: e in xs <==> e in ys
    requires Tiled(data, start, xs)
    ensures Tiled(data, start, ys)
  {
    SomeElement(xs);
    SomeElement(ys);
    forall p: nat | start <= p < |data|
      ensures data[p] == 0 || Covered(ys, p)
    {
      if Covered(xs, p) {
        var e :| e in xs && e.offset <= p < End(e);
        assert e in ys;
      }
    }
  }

  lemma TiledByOrder(data: Bytes, start: nat, entries: seq<Entry>, ordered: seq<Entry>)
    requires KindsDiffer(entries) && multiset(ordered) == multiset(entries) && SortedBy(ordered, Order)
    ensures Tiled(data, start, entries) <==> Chain(data, start, ordered)
  {
    KindsDifferPermuted(entries, ordered);
    PermutationElements(ordered, entries);
    if Tiled(data, start, entries) {
      SameTiling(data, start, entries, ordered);
      TiledChains(data, start, ordered);
    }
    if Chain(data, start, ordered) {
      ChainTiles(data, start, ordered);
      SameTiling(data, start, ordered, entries);
    }
  }

  method CheckTiling(data: Bytes, start: nat, entries: seq<Entry>) returns (ok: bool)
    requires KindsDiffer(entries)
    ensures ok <==> Tiled(data, start, entries)
  {
    var ordered := Sort(entries, Order);
    TiledByOrder(data, start, entries, ordered);
    ok := WalkChain(data, start, ordered);
  }

  method WalkChain(data: Bytes, start: nat, ordered: seq<Entry>) returns (ok: bool)
    ensures ok <==> Chain(data, start, ordered)
  {
    var cursor := start;
    for k := 0 to |ordered|
      invariant Chain(data, start, ordered) <==> Chain(data, cursor, ordered[k..])
    {
      var e := ordered[k];
      assert ordered[k..][0] == e && ordered[k..][1..] == ordered[k + 1..];
      if e.offset < cursor || !AllZero(data, cursor, e.offset) {
        return false;
      }
      cursor := End(e);
    }
    ok := cursor == |data|;
  }

  // ----- Sections laid out one after the other

  /** The sections in order, each but the first aligned to eight bytes. */
  function Body(sections: seq<Bytes>): Bytes
  {
    if sections == [] then []
    else
      var before := Body(sections[..|sections| - 1]);
      before + Zeros(Align(|before|) - |before|) + sections[|sections| - 1]
  }
}
