/** The wire writer, and what the reader makes of its images. */
module WireWriter {
  import opened Ordering
  import opened FixedWidth
  import opened WireTable
  import opened WireImage
  import opened WireTiling
  import opened WireReader

  // ----- What is written

  datatype Source = Source(sections: map<nat, Bytes>, minor: nat, features: nat, schema: nat)

  function SectionAt(src: Source, kind: nat): Bytes
  {
    if kind in src.sections then src.sections[kind] else []
  }

  function SectionList(src: Source, kinds: seq<nat>): (list: seq<Bytes>)
    ensures |list| == |kinds|
  {
    if kinds == [] then [] else SectionList(src, kinds[..|kinds| - 1]) + [SectionAt(src, kinds[|kinds| - 1])]
  }

  function PlanEntry(hs: Hashes, src: Source, kind: nat, offset: nat): Entry
  {
    var section := SectionAt(src, kind);
    Entry(kind, if Required(kind) then 1 else 2, SectionSchema(src.schema, kind), offset, |section|, |section|,
          if Known(src.schema, kind) then Word(section, 0) else 0, hs.sha(section))
  }

  /** The directory: each section at the first aligned place behind the one before it. */
  function Plan(hs: Hashes, src: Source, kinds: seq<nat>, start: nat): (plan: seq<Entry>)
    ensures |plan| == |kinds|
  {
    if kinds == [] then []
    else
      var init := kinds[..|kinds| - 1];
      Plan(hs, src, init, start)
      + [PlanEntry(hs, src, kinds[|kinds| - 1], start + Align(|Body(SectionList(src, init))|))]
  }

  function Start(n: nat): nat { HEADER + 72 * n }

  function HeadOf(src: Source, kinds: seq<nat>): Head
  {
    Head(src.minor, src.features, |kinds|, src.schema, Start(|kinds|) + |Body(SectionList(src, kinds))|)
  }

  function Framed(h: Head, digest: Bytes, crc: nat, entries: seq<Entry>, body: Bytes): Bytes
  {
    Front(h) + Seal(digest, crc) + Directory(entries) + body
  }

  const BLANK: nat := 0

  /** The image before it is sealed. */
  function Unsealed(hs: Hashes, src: Source, kinds: seq<nat>): Bytes
  {
    Framed(HeadOf(src, kinds), Zeros(32), BLANK, Plan(hs, src, kinds, Start(|kinds|)), Body(SectionList(src, kinds)))
  }

  function ImageBytes(hs: Hashes, src: Source, kinds: seq<nat>): Bytes
  {
    var unsealed := Unsealed(hs, src, kinds);
    Framed(HeadOf(src, kinds), hs.sha(unsealed), hs.crc(HeaderPart(unsealed)),
           Plan(hs, src, kinds, Start(|kinds|)), Body(SectionList(src, kinds)))
  }

  // ----- Frames

  /** The data agrees with a part from some place on. */
  ghost predicate Agrees(data: Bytes, at: nat, part: Bytes)
  {
    at + |part| <= |data| && forall q | 0 <= q < |part| :: data[at + q] == part[q]
  }

  lemma AtAgrees(data: Bytes, at: nat, part: Bytes)
    requires At(data, at, part)
    ensures Agrees(data, at, part)
  {
    AtSlice(data, at, part);
    forall q | 0 <= q < |part|
      ensures data[at + q] == part[q]
    {
      assert data[at..at + |part|][q] == part[q];
    }
  }

  lemma FourJoined(data: Bytes, a: Bytes, b: Bytes, c: Bytes, d: Bytes, i: nat, j: nat, k: nat)
    requires i == |a| && j == i + |b| && k == j + |c| && |data| == k + |d|
    requires Agrees(data, 0, a) && Agrees(data, i, b) && Agrees(data, j, c) && Agrees(data, k, d)
    ensures data == a + b + c + d
  {
    var whole := a + b + c + d;
    forall p | 0 <= p < |data|
      ensures data[p] == whole[p]
    {
      if p < i {
        assert data[0 + p] == a[p];
      } else if p < j {
        assert data[i + (p - i)] == b[p - i];
      } else if p < k {
        assert data[j + (p - j)] == c[p - j];
      } else {
        assert data[k + (p - k)] == d[p - k];
      }
    }
  }

  lemma FourApart(a: Bytes, b: Bytes, c: Bytes, d: Bytes, i: nat, j: nat, k: nat)
    requires i == |a| && j == i + |b| && k == j + |c|
    ensures var data := a + b + c + d; At(data, 0, a) && At(data, i, b) && At(data, j, c) && At(data, k, d)
  {
    var data := a + b + c + d;
    assert data == [] + a + (b + c + d) && data == a + b + (c + d) && data == (a + b) + c + d;
    assert data == (a + b + c) + d + [];
    AtMiddle([], a, b + c + d);
    AtMiddle(a, b, c + d);
    AtMiddle(a + b, c, d);
    AtMiddle(a + b + c, d, []);
  }

  /** An image is its four parts, each in its place. */
  lemma FramedIff(data: Bytes, h: Head, digest: Bytes, crc: nat, entries: seq<Entry>, body: Bytes)
    requires |digest| == 32 && DigestsFit(entries)
    ensures data == Framed(h, digest, crc, entries, body) <==>
            && |data| == Start(|entries|) + |body|
            && At(data, 0, Front(h)) && At(data, 56, Seal(digest, crc))
            && At(data, HEADER, Directory(entries)) && At(data, Start(|entries|), body)
  {
    DirectoryLength(entries);
    if data == Framed(h, digest, crc, entries, body) {
      FourApart(Front(h), Seal(digest, crc), Directory(entries), body, 56, HEADER, Start(|entries|));
    } else if |data| == Start(|entries|) + |body|
              && At(data, 0, Front(h)) && At(data, 56, Seal(digest, crc))
              && At(data, HEADER, Directory(entries)) && At(data, Start(|entries|), body) {
      AtAgrees(data, 0, Front(h));
      AtAgrees(data, 56, Seal(digest, crc));
      AtAgrees(data, HEADER, Directory(entries));
      AtAgrees(data, Start(|entries|), body);
      FourJoined(data, Front(h), Seal(digest, crc), Directory(entries), body, 56, HEADER, Start(|entries|));
    }
  }

  lemma {:induction false} ZeroWord(n: nat, width: nat)
    requires n == 0
    ensures ToLE(n, width) == Zeros(width)
  {
    if width > 0 {
      ZeroWord(n / 256, width - 1);
    }
  }

  /** Blanking undoes the seal. */
  lemma BlankedSeal(front: Bytes, digest: Bytes, crc: nat, rest: Bytes)
    requires |front| == 56 && |digest| == 32
    ensures Blanked(front + Seal(digest, crc) + rest) == front + Seal(Zeros(32), BLANK) + rest
  {
    var data := front + Seal(digest, crc) + rest;
    var word := ToLE(RESERVED, 4);
    assert data[..56] == front;
    assert data[92..] == word + rest;
    ZeroWord(BLANK, 4);
    ZerosSplit(32, 4);
    assert Seal(Zeros(32), BLANK) == Zeros(36) + word;
    assert front + Zeros(36) + (word + rest) == front + (Zeros(36) + word) + rest;
  }

  lemma FramedBlanked(h: Head, digest: Bytes, crc: nat, entries: seq<Entry>, body: Bytes)
    requires |digest| == 32
    ensures Blanked(Framed(h, digest, crc, entries, body)) == Framed(h, Zeros(32), BLANK, entries, body)
  {
    BlankedSeal(Front(h), digest, crc, Directory(entries) + body);
    assert Front(h) + Seal(digest, crc) + (Directory(entries) + body) == Framed(h, digest, crc, entries, body);
    assert Front(h) + Seal(Zeros(32), BLANK) + (Directory(entries) + body)
         == Framed(h, Zeros(32), BLANK, entries, body);
  }

  // ----- Where sections lie

  lemma AlignUp(n: nat)
    ensures n <= Align(n) < n + 8 && Align(n) % 8 == 0
  {
  }

  lemma AlignShift(count: nat, n: nat)
    ensures Align(Start(count) + n) == Start(count) + Align(n)
  {
    assert Start(count) == 8 * (12 + 9 * count);
  }

  /** A body is what is before its last section, zeros, and the last section. */
  lemma BodyAt(data: Bytes, start: nat, sections: seq<Bytes>, from: nat, to: nat)
    requires sections != [] && from == start + |Body(sections[..|sections| - 1])|
    requires to == start + Align(|Body(sections[..|sections| - 1])|)
    ensures from <= to && start + |Body(sections)| == to + |sections[|sections| - 1]|
    ensures At(data, start, Body(sections)) <==>
            && At(data, start, Body(sections[..|sections| - 1]))
            && At(data, from, Zeros(to - from)) && At(data, to, sections[|sections| - 1])
  {
    var before := Body(sections[..|sections| - 1]);
    AlignUp(|before|);
    assert to - from == Align(|before|) - |before|;
    AtTriple(data, start, before, Zeros(to - from), sections[|sections| - 1]);
  }

  lemma {:induction false} BodyPrefix(data: Bytes, start: nat, sections: seq<Bytes>, k: nat)
    requires At(data, start, Body(sections)) && k <= |sections|
    ensures At(data, start, Body(sections[..k])) && |Body(sections[..k])| <= |Body(sections)|
    decreases |sections|
  {
    if k == |sections| {
      assert sections[..k] == sections;
    } else {
      var before := |Body(sections[..|sections| - 1])|;
      BodyAt(data, start, sections, start + before, start + Align(before));
      BodyPrefix(data, start, sections[..|sections| - 1], k);
      assert sections[..|sections| - 1][..k] == sections[..k];
    }
  }

  // ----- The planned directory

  ghost predicate KindsRise(kinds: seq<nat>)
  {
    |kinds| < 2 || (KindsRise(kinds[..|kinds| - 1]) && kinds[|kinds| - 2] < kinds[|kinds| - 1])
  }

  lemma ListLast(src: Source, kinds: seq<nat>)
    requires kinds != []
    ensures var n := |kinds| - 1; var list := SectionList(src, kinds);
      list[..n] == SectionList(src, kinds[..n]) && list[n] == SectionAt(src, kinds[n])
  {
  }

  /** The end of the body, counted from the start of the image. */
  function EndOf(src: Source, kinds: seq<nat>, start: nat): nat { start + |Body(SectionList(src, kinds))| }

  /** Where the last section goes. */
  function LastOffset(src: Source, kinds: seq<nat>, start: nat): nat
    requires kinds != []
  {
    start + Align(|Body(SectionList(src, kinds[..|kinds| - 1]))|)
  }

  lemma EndStep(src: Source, kinds: seq<nat>, start: nat)
    requires kinds != []
    ensures EndOf(src, kinds, start) == LastOffset(src, kinds, start) + |SectionAt(src, kinds[|kinds| - 1])|
    ensures EndOf(src, kinds[..|kinds| - 1], start) <= LastOffset(src, kinds, start)
  {
    ListLast(src, kinds);
    AlignUp(|Body(SectionList(src, kinds[..|kinds| - 1]))|);
  }

  lemma PlanLast(hs: Hashes, src: Source, kinds: seq<nat>, start: nat)
    requires kinds != []
    ensures var n := |kinds| - 1; var plan := Plan(hs, src, kinds, start);
      && plan[..n] == Plan(hs, src, kinds[..n], start)
      && plan[n] == PlanEntry(hs, src, kinds[n], LastOffset(src, kinds, start))
  {
  }

  ghost predicate Carries(data: Bytes, src: Source, kinds: seq<nat>, start: nat)
  {
    At(data, start, Body(SectionList(src, kinds)))
  }

  /** An entry for the last section. */
  ghost predicate IsLast(src: Source, kinds: seq<nat>, start: nat, e: Entry)
  {
    && kinds != []
    && var n := |kinds| - 1;
      && e.offset == LastOffset(src, kinds, start)
      && e.stored == |SectionAt(src, kinds[n])| && e.kind == kinds[n]
  }

  lemma LastPlace(hs: Hashes, src: Source, kinds: seq<nat>, start: nat)
    requires kinds != []
    ensures IsLast(src, kinds, start, Plan(hs, src, kinds, start)[|kinds| - 1])
  {
    PlanLast(hs, src, kinds, start);
  }

  /** The last section lies where its entry says, behind zeros. */
  lemma CarriesLast(data: Bytes, src: Source, kinds: seq<nat>, start: nat, e: Entry)
    requires Carries(data, src, kinds, start) && IsLast(src, kinds, start, e)
    ensures var n := |kinds| - 1; var from := EndOf(src, kinds[..n], start);
      && Carries(data, src, kinds[..n], start)
      && start <= from <= e.offset && At(data, from, Zeros(e.offset - from))
      && At(data, e.offset, SectionAt(src, kinds[n]))
      && End(e) == EndOf(src, kinds, start)
  {
    ListLast(src, kinds);
    BodyAt(data, start, SectionList(src, kinds), EndOf(src, kinds[..|kinds| - 1], start), e.offset);
  }

  lemma {:induction false} PlanInside(data: Bytes, hs: Hashes, src: Source, kinds: seq<nat>, start: nat, e: Entry)
    requires Carries(data, src, kinds, start) && e in Plan(hs, src, kinds, start)
    ensures start <= e.offset && End(e) <= EndOf(src, kinds, start) && e.kind in kinds
    decreases |kinds|
  {
    var n := |kinds| - 1;
    PlanLast(hs, src, kinds, start);
    LastPlace(hs, src, kinds, start);
    CarriesLast(data, src, kinds, start, Plan(hs, src, kinds, start)[n]);
    if e != Plan(hs, src, kinds, start)[n] {
      PlanInside(data, hs, src, kinds[..n], start, e);
    }
  }

  lemma {:induction false} KindsBelow(kinds: seq<nat>, k: nat)
    requires KindsRise(kinds) && kinds != [] && k in kinds[..|kinds| - 1]
    ensures k < kinds[|kinds| - 1]
    decreases |kinds|
  {
    var init := kinds[..|kinds| - 1];
    if k != init[|init| - 1] {
      KindsBelow(init, k);
    }
  }

  lemma {:induction false} PlanApart(data: Bytes, hs: Hashes, src: Source, kinds: seq<nat>, start: nat, x: Entry,
                                     y: Entry)
    requires Carries(data, src, kinds, start) && KindsRise(kinds)
    requires x in Plan(hs, src, kinds, start) && y in Plan(hs, src, kinds, start) && Sooner(x, y)
    ensures End(x) <= y.offset
    decreases |kinds|
  {
    var n := |kinds| - 1;
    var plan := Plan(hs, src, kinds, start);
    PlanLast(hs, src, kinds, start);
    LastPlace(hs, src, kinds, start);
    CarriesLast(data, src, kinds, start, Plan(hs, src, kinds, start)[n]);
    if x != plan[n] {
      PlanInside(data, hs, src, kinds[..n], start, x);
      if y != plan[n] {
        PlanApart(data, hs, src, kinds[..n], start, x, y);
      }
    } else if y != plan[n] {
      PlanInside(data, hs, src, kinds[..n], start, y);
      KindsBelow(kinds, y.kind);
    }
  }

  lemma ZeroAmong(data: Bytes, from: nat, to: nat, p: nat)
    requires from <= p < to && p < |data| && At(data, from, Zeros(to - from))
    ensures data[p] == 0
  {
    AtSlice(data, from, Zeros(to - from));
    ZerosAt(data, from, to);
    ZeroBetween(data, from, to, p);
  }

  lemma CoveredMore(entries: seq<Entry>, n: nat, p: nat)
    requires n <= |entries|
    ensures Covered(entries[..n], p) ==> Covered(entries, p)
  {
    if Covered(entries[..n], p) {
      var e :| e in entries[..n] && e.offset <= p < End(e);
      assert e in entries;
    }
  }

  lemma {:induction false} PlanZero(data: Bytes, hs: Hashes, src: Source, kinds: seq<nat>, start: nat, p: nat)
    requires Carries(data, src, kinds, start) && start <= p < EndOf(src, kinds, start) && p < |data|
    ensures data[p] == 0 || Covered(Plan(hs, src, kinds, start), p)
    decreases |kinds|
  {
    var n := |kinds| - 1;
    var plan := Plan(hs, src, kinds, start);
    PlanLast(hs, src, kinds, start);
    LastPlace(hs, src, kinds, start);
    CarriesLast(data, src, kinds, start, Plan(hs, src, kinds, start)[n]);
    var from := EndOf(src, kinds[..n], start);
    assert plan[n] in plan;
    if p < from {
      PlanZero(data, hs, src, kinds[..n], start, p);
      CoveredMore(plan, n, p);
    } else if p < plan[n].offset {
      ZeroAmong(data, from, plan[n].offset, p);
    }
  }

  lemma PlanTiled(data: Bytes, hs: Hashes, src: Source, kinds: seq<nat>, start: nat)
    requires Carries(data, src, kinds, start) && KindsRise(kinds) && |data| == EndOf(src, kinds, start)
    ensures Tiled(data, start, Plan(hs, src, kinds, start))
  {
    var plan := Plan(hs, src, kinds, start);
    forall e | e in plan
      ensures start <= e.offset && End(e) <= |data|
    {
      PlanInside(data, hs, src, kinds, start, e);
    }
    forall x, y | x in plan && y in plan && Sooner(x, y)
      ensures End(x) <= y.offset
    {
      PlanApart(data, hs, src, kinds, start, x, y);
    }
    forall p: nat | start <= p < |data|
      ensures data[p] == 0 || Covered(plan, p)
    {
      PlanZero(data, hs, src, kinds, start, p);
    }
    if kinds != [] {
      LastPlace(hs, src, kinds, start);
      CarriesLast(data, src, kinds, start, plan[|kinds| - 1]);
      assert plan[|kinds| - 1] in plan;
    }
  }

  /** Where the next section goes, behind the entries planned so far. */
  function NextOffset(start: nat, entries: seq<Entry>): nat
  {
    if entries == [] then start else Align(End(entries[|entries| - 1]))
  }

  /** Entries for the kinds, each at the next aligned place. */
  ghost predicate IsPlan(hs: Hashes, src: Source, kinds: seq<nat>, start: nat, entries: seq<Entry>)
    decreases |kinds|
  {
    && |entries| == |kinds|
    && (kinds != [] ==>
          var n := |kinds| - 1;
          && IsPlan(hs, src, kinds[..n], start, entries[..n])
          && entries[n] == PlanEntry(hs, src, kinds[n], NextOffset(start, entries[..n])))
  }

  lemma PlanNext(hs: Hashes, src: Source, kinds: seq<nat>, count: nat)
    ensures NextOffset(Start(count), Plan(hs, src, kinds, Start(count)))
         == Start(count) + Align(|Body(SectionList(src, kinds))|)
  {
    var start := Start(count);
    if kinds != [] {
      PlanEnd(hs, src, kinds, start);
      AlignShift(count, |Body(SectionList(src, kinds))|);
    }
  }

  lemma PlanEnd(hs: Hashes, src: Source, kinds: seq<nat>, start: nat)
    requires kinds != []
    ensures End(Plan(hs, src, kinds, start)[|kinds| - 1]) == EndOf(src, kinds, start)
  {
    LastPlace(hs, src, kinds, start);
    EndStep(src, kinds, start);
  }

  lemma SameLast(xs: seq<Entry>, ys: seq<Entry>, n: nat)
    requires |xs| == |ys| == n + 1
    ensures xs == ys <==> xs[..n] == ys[..n] && xs[n] == ys[n]
  {
    assert xs == xs[..n] + [xs[n]] && ys == ys[..n] + [ys[n]];
  }

  /** There is one such directory. */
  lemma {:induction false} PlanUnique(hs: Hashes, src: Source, kinds: seq<nat>, count: nat, entries: seq<Entry>)
    ensures IsPlan(hs, src, kinds, Start(count), entries) <==> entries == Plan(hs, src, kinds, Start(count))
    decreases |kinds|
  {
    if kinds != [] && |entries| == |kinds| {
      var n, start := |kinds| - 1, Start(count);
      PlanUnique(hs, src, kinds[..n], count, entries[..n]);
      PlanNext(hs, src, kinds[..n], count);
      PlanLast(hs, src, kinds, start);
      SameLast(entries, Plan(hs, src, kinds, start), n);
    }
  }

  // ----- What the reader makes of the plan

  ghost predicate HashesFit(hs: Hashes)
  {
    (forall bs :: |hs.sha(bs)| == 32) && (forall bs :: hs.crc(bs) < U32)
  }

  lemma {:induction false} PlanDigests(hs: Hashes, src: Source, kinds: seq<nat>, start: nat)
    requires HashesFit(hs)
    ensures DigestsFit(Plan(hs, src, kinds, start))
    decreases |kinds|
  {
    if kinds != [] {
      PlanLast(hs, src, kinds, start);
      PlanDigests(hs, src, kinds[..|kinds| - 1], start);
    }
  }

  predicate KindsFit(kinds: seq<nat>)
  {
    kinds == [] || (KindsFit(kinds[..|kinds| - 1]) && kinds[|kinds| - 1] < U16)
  }

  lemma EntryPlanFits(hs: Hashes, src: Source, kind: nat, offset: nat)
    requires HashesFit(hs) && kind < U16 && offset + |SectionAt(src, kind)| < U64
    ensures EntryFits(PlanEntry(hs, src, kind, offset))
  {
    Widths();
    LEAtBound(SectionAt(src, kind), 0, WORD);
  }

  /** Planned entries of kinds in range, none of which ends behind the bound. */
  ghost predicate PlannedBelow(hs: Hashes, src: Source, entries: seq<Entry>, bound: nat)
  {
    entries == [] ||
    var last := entries[|entries| - 1];
    && PlannedBelow(hs, src, entries[..|entries| - 1], bound)
    && last == PlanEntry(hs, src, last.kind, last.offset) && last.kind < U16 && End(last) <= bound
  }

  lemma {:induction false} PlanIsBelow(hs: Hashes, src: Source, kinds: seq<nat>, start: nat, bound: nat)
    requires EndOf(src, kinds, start) <= bound && KindsFit(kinds)
    ensures PlannedBelow(hs, src, Plan(hs, src, kinds, start), bound)
    decreases |kinds|
  {
    if kinds != [] {
      PlanLast(hs, src, kinds, start);
      EndStep(src, kinds, start);
      PlanIsBelow(hs, src, kinds[..|kinds| - 1], start, bound);
    }
  }

  lemma {:induction false} BelowFits(hs: Hashes, src: Source, entries: seq<Entry>, bound: nat)
    requires HashesFit(hs) && PlannedBelow(hs, src, entries, bound) && bound < U64
    ensures AllFit(entries)
    decreases |entries|
  {
    if entries != [] {
      var last := entries[|entries| - 1];
      BelowFits(hs, src, entries[..|entries| - 1], bound);
      EntryPlanFits(hs, src, last.kind, last.offset);
    }
  }

  lemma PlanFits(hs: Hashes, src: Source, kinds: seq<nat>, start: nat)
    requires HashesFit(hs) && EndOf(src, kinds, start) < U64 && KindsFit(kinds)
    ensures AllFit(Plan(hs, src, kinds, start))
  {
    var bound := EndOf(src, kinds, start);
    PlanIsBelow(hs, src, kinds, start, bound);
    BelowFits(hs, src, Plan(hs, src, kinds, start), bound);
  }

  /** A section the format allows: permitted here, and a table where one is expected. */
  ghost predicate SectionOk(src: Source, kind: nat)
  {
    && Permitted(src.schema, src.minor, kind)
    && (Known(src.schema, kind) ==> Regular(SectionAt(src, kind), Word(SectionAt(src, kind), 0)))
  }

  ghost predicate SectionsOk(src: Source, kinds: seq<nat>)
  {
    kinds == [] || (SectionsOk(src, kinds[..|kinds| - 1]) && SectionOk(src, kinds[|kinds| - 1]))
  }

  lemma PlanEntryOk(data: Bytes, hs: Hashes, src: Source, count: nat, kind: nat, offset: nat)
    requires At(data, offset, SectionAt(src, kind)) && offset % 8 == 0 && Start(count) <= offset
    ensures var e := PlanEntry(hs, src, kind, offset);
      && Section(data, e) == SectionAt(src, kind)
      && (EntryOk(data, hs, src.schema, src.minor, count, e) <==> SectionOk(src, kind))
  {
    AtSlice(data, offset, SectionAt(src, kind));
    AtIsSlice(data, offset, SectionAt(src, kind));
  }

  lemma StartAligned(count: nat)
    ensures Start(count) % 8 == 0
  {
    assert Start(count) == 8 * (12 + 9 * count);
  }

  lemma Aligned(start: nat, n: nat)
    requires start % 8 == 0
    ensures (start + Align(n)) % 8 == 0
  {
    AlignUp(n);
  }

  lemma LastLies(data: Bytes, src: Source, kinds: seq<nat>, start: nat)
    requires Carries(data, src, kinds, start) && kinds != []
    ensures Carries(data, src, kinds[..|kinds| - 1], start)
    ensures At(data, LastOffset(src, kinds, start), SectionAt(src, kinds[|kinds| - 1]))
  {
    ListLast(src, kinds);
    BodyAt(data, start, SectionList(src, kinds), EndOf(src, kinds[..|kinds| - 1], start),
           LastOffset(src, kinds, start));
  }

  lemma LastEntryOk(data: Bytes, hs: Hashes, src: Source, kinds: seq<nat>, count: nat, start: nat)
    requires Carries(data, src, kinds, start) && kinds != [] && Start(count) <= start && start % 8 == 0
    ensures var e := PlanEntry(hs, src, kinds[|kinds| - 1], LastOffset(src, kinds, start));
      && Section(data, e) == SectionAt(src, kinds[|kinds| - 1])
      && (EntryOk(data, hs, src.schema, src.minor, count, e) <==> SectionOk(src, kinds[|kinds| - 1]))
  {
    LastLies(data, src, kinds, start);
    Aligned(start, |Body(SectionList(src, kinds[..|kinds| - 1]))|);
    PlanEntryOk(data, hs, src, count, kinds[|kinds| - 1], LastOffset(src, kinds, start));
  }

  /** The reader takes the plan exactly when every section is allowed. */
  lemma {:induction false} PlanEntriesOk(data: Bytes, hs: Hashes, src: Source, kinds: seq<nat>, count: nat, start: nat)
    requires Carries(data, src, kinds, start) && KindsRise(kinds) && Start(count) <= start && start % 8 == 0
    ensures EntriesOk(data, hs, src.schema, src.minor, count, Plan(hs, src, kinds, start)) <==> SectionsOk(src, kinds)
    decreases |kinds|
  {
    if kinds != [] {
      var n := |kinds| - 1;
      LastEntryOk(data, hs, src, kinds, count, start);
      PlanLast(hs, src, kinds, start);
      LastLies(data, src, kinds, start);
      PlanEntriesOk(data, hs, src, kinds[..n], count, start);
      if n > 0 {
        PlanLast(hs, src, kinds[..n], start);
      }
    }
  }

  function Collected(src: Source, kinds: seq<nat>): map<nat, Bytes>
  {
    if kinds == [] then map[]
    else Collected(src, kinds[..|kinds| - 1])[kinds[|kinds| - 1] := SectionAt(src, kinds[|kinds| - 1])]
  }

  lemma {:induction false} CollectedAll(src: Source, kinds: seq<nat>)
    ensures Collected(src, kinds).Keys == Elements(kinds)
    ensures forall k | k in kinds :: k in Collected(src, kinds) && Collected(src, kinds)[k] == SectionAt(src, k)
  {
    if kinds != [] {
      var init, last := kinds[..|kinds| - 1], kinds[|kinds| - 1];
      CollectedAll(src, init);
      assert Elements(kinds) == Elements(init) + {last};
      forall k | k in kinds
        ensures k in Collected(src, kinds) && Collected(src, kinds)[k] == SectionAt(src, k)
      {
        assert k == last || k in init;
      }
    }
  }

  lemma {:induction false} PlanSections(data: Bytes, hs: Hashes, src: Source, kinds: seq<nat>, start: nat)
    requires Carries(data, src, kinds, start) && Start(0) <= start && start % 8 == 0
    ensures SectionsOf(data, Plan(hs, src, kinds, start)) == Collected(src, kinds)
    decreases |kinds|
  {
    if kinds != [] {
      var n := |kinds| - 1;
      LastEntryOk(data, hs, src, kinds, 0, start);
      PlanLast(hs, src, kinds, start);
      LastLies(data, src, kinds, start);
      PlanSections(data, hs, src, kinds[..n], start);
    }
  }

  lemma FlaggedLast(entries: seq<Entry>, k: nat)
    requires entries != []
    ensures var n := |entries| - 1;
      k in Flagged(entries) <==> k in Flagged(entries[..n]) || (entries[n].flags == 1 && entries[n].kind == k)
  {
  }

  lemma PlanFlags(hs: Hashes, src: Source, kind: nat, offset: nat)
    ensures var e := PlanEntry(hs, src, kind, offset); e.kind == kind && (e.flags == 1 <==> Required(kind))
  {
  }

  lemma {:induction false} PlanFlagged(hs: Hashes, src: Source, kinds: seq<nat>, start: nat, k: nat)
    ensures k in Flagged(Plan(hs, src, kinds, start)) <==> k in kinds && Required(k)
    decreases |kinds|
  {
    if kinds != [] {
      var n := |kinds| - 1;
      PlanLast(hs, src, kinds, start);
      PlanFlags(hs, src, kinds[n], LastOffset(src, kinds, start));
      FlaggedLast(Plan(hs, src, kinds, start), k);
      PlanFlagged(hs, src, kinds[..n], start, k);
      assert k in kinds <==> k in kinds[..n] || k == kinds[n];
    }
  }

  lemma PlanHasRequired(hs: Hashes, src: Source, kinds: seq<nat>, start: nat)
    requires forall k: nat | Required(k) :: k in kinds
    ensures HasRequired(Plan(hs, src, kinds, start))
  {
    forall k: nat
      ensures k in Flagged(Plan(hs, src, kinds, start)) <==> k in RequiredKinds()
    {
      PlanFlagged(hs, src, kinds, start, k);
    }
  }

  // ----- Reading back what was written

  ghost predicate IsKinds(src: Source, kinds: seq<nat>)
  {
    KindsRise(kinds) && forall k: nat :: k in kinds <==> k in src.sections
  }

  /** Every field is in its range. */
  predicate FieldsFit(src: Source, kinds: seq<nat>)
  {
    && KindsFit(kinds) && src.minor < U16 && src.features < U32 && src.schema < U32
    && EndOf(src, kinds, Start(|kinds|)) < U64
  }

  ghost predicate Encodable(src: Source, kinds: seq<nat>)
  {
    FieldsFit(src, kinds) && forall k: nat | Required(k) :: k in kinds
  }

  lemma {:induction false} KindsCount(kinds: seq<nat>)
    requires KindsRise(kinds) && kinds != []
    ensures |kinds| <= kinds[|kinds| - 1] + 1
  {
    if |kinds| > 1 {
      KindsCount(kinds[..|kinds| - 1]);
    }
  }

  lemma HeadOfFits(src: Source, kinds: seq<nat>)
    requires KindsRise(kinds) && Encodable(src, kinds)
    ensures HeadFits(HeadOf(src, kinds))
  {
    Widths();
    if kinds != [] {
      KindsCount(kinds);
    }
  }

  /** What the reader finds in a written image. */
  function WrittenImage(hs: Hashes, src: Source, kinds: seq<nat>): Image
  {
    Image(src.minor, src.features, hs.sha(Unsealed(hs, src, kinds)), Plan(hs, src, kinds, Start(|kinds|)),
          src.sections, src.schema)
  }

  lemma WrittenParts(hs: Hashes, src: Source, kinds: seq<nat>)
    requires HashesFit(hs) && KindsRise(kinds) && Encodable(src, kinds)
    ensures var data, unsealed := ImageBytes(hs, src, kinds), Unsealed(hs, src, kinds);
      && |data| == EndOf(src, kinds, Start(|kinds|))
      && At(data, 0, Front(HeadOf(src, kinds)))
      && At(data, 56, Seal(hs.sha(unsealed), hs.crc(HeaderPart(unsealed))))
      && At(data, HEADER, Directory(Plan(hs, src, kinds, Start(|kinds|))))
      && Carries(data, src, kinds, Start(|kinds|))
  {
    var data, unsealed := ImageBytes(hs, src, kinds), Unsealed(hs, src, kinds);
    var plan := Plan(hs, src, kinds, Start(|kinds|));
    PlanDigests(hs, src, kinds, Start(|kinds|));
    FramedIff(data, HeadOf(src, kinds), hs.sha(unsealed), hs.crc(HeaderPart(unsealed)), plan,
              Body(SectionList(src, kinds)));
  }

  lemma WrittenBlanked(hs: Hashes, src: Source, kinds: seq<nat>)
    requires HashesFit(hs)
    ensures Blanked(ImageBytes(hs, src, kinds)) == Unsealed(hs, src, kinds)
  {
    var unsealed := Unsealed(hs, src, kinds);
    FramedBlanked(HeadOf(src, kinds), hs.sha(unsealed), hs.crc(HeaderPart(unsealed)),
                  Plan(hs, src, kinds, Start(|kinds|)), Body(SectionList(src, kinds)));
  }

  lemma WrittenHeader(hs: Hashes, src: Source, kinds: seq<nat>)
    requires HashesFit(hs) && KindsRise(kinds) && Encodable(src, kinds)
    ensures var data := ImageBytes(hs, src, kinds);
      IsHeader(data, src.schema, HeadOf(src, kinds), hs.sha(Blanked(data)), hs.crc(HeaderPart(Blanked(data))))
  {
    WrittenParts(hs, src, kinds);
    WrittenBlanked(hs, src, kinds);
    HeadOfFits(src, kinds);
    Widths();
  }

  lemma CollectedIsAll(src: Source, kinds: seq<nat>)
    requires forall k: nat :: k in kinds <==> k in src.sections
    ensures Collected(src, kinds) == src.sections
  {
    CollectedAll(src, kinds);
  }

  lemma CarriedDirectory(data: Bytes, hs: Hashes, src: Source, kinds: seq<nat>)
    requires Carries(data, src, kinds, Start(|kinds|)) && |data| == EndOf(src, kinds, Start(|kinds|))
    requires KindsRise(kinds) && forall k: nat | Required(k) :: k in kinds
    ensures DirectoryOk(data, hs, src.schema, src.minor, Plan(hs, src, kinds, Start(|kinds|)))
       <==> SectionsOk(src, kinds)
  {
    StartAligned(|kinds|);
    PlanEntriesOk(data, hs, src, kinds, |kinds|, Start(|kinds|));
    PlanHasRequired(hs, src, kinds, Start(|kinds|));
    PlanTiled(data, hs, src, kinds, Start(|kinds|));
  }

  lemma WrittenDirectory(hs: Hashes, src: Source, kinds: seq<nat>)
    requires HashesFit(hs) && IsKinds(src, kinds) && Encodable(src, kinds)
    ensures DirectoryOk(ImageBytes(hs, src, kinds), hs, src.schema, src.minor, Plan(hs, src, kinds, Start(|kinds|)))
       <==> SectionsOk(src, kinds)
    ensures SectionsOf(ImageBytes(hs, src, kinds), Plan(hs, src, kinds, Start(|kinds|))) == src.sections
  {
    WrittenParts(hs, src, kinds);
    CarriedDirectory(ImageBytes(hs, src, kinds), hs, src, kinds);
    StartAligned(|kinds|);
    PlanSections(ImageBytes(hs, src, kinds), hs, src, kinds, Start(|kinds|));
    CollectedIsAll(src, kinds);
  }

  /** A written image is accepted exactly when all its sections are allowed, and reading it gives
      back what was written. */
  lemma ReadsBack(hs: Hashes, src: Source, kinds: seq<nat>, image: Image)
    requires HashesFit(hs) && IsKinds(src, kinds) && Encodable(src, kinds)
    ensures Accepted(ImageBytes(hs, src, kinds), hs, src.schema, image) <==>
            SectionsOk(src, kinds) && image == WrittenImage(hs, src, kinds)
  {
    var data := ImageBytes(hs, src, kinds);
    WrittenUnique(hs, src, kinds, image);
    WrittenAccepted(hs, src, kinds);
  }

  lemma WrittenAccepted(hs: Hashes, src: Source, kinds: seq<nat>)
    requires HashesFit(hs) && IsKinds(src, kinds) && Encodable(src, kinds)
    ensures Accepted(ImageBytes(hs, src, kinds), hs, src.schema, WrittenImage(hs, src, kinds))
       <==> SectionsOk(src, kinds)
  {
    WrittenHeader(hs, src, kinds);
    WrittenBlanked(hs, src, kinds);
    WrittenParts(hs, src, kinds);
    WrittenDirectory(hs, src, kinds);
    PlanFits(hs, src, kinds, Start(|kinds|));
  }

  lemma WrittenUnique(hs: Hashes, src: Source, kinds: seq<nat>, image: Image)
    requires HashesFit(hs) && IsKinds(src, kinds) && Encodable(src, kinds)
    ensures Accepted(ImageBytes(hs, src, kinds), hs, src.schema, image) ==> image == WrittenImage(hs, src, kinds)
  {
    var data, plan := ImageBytes(hs, src, kinds), Plan(hs, src, kinds, Start(|kinds|));
    if Accepted(data, hs, src.schema, image) {
      AcceptedUnique(data, hs, src.schema, image);
      WrittenReading(hs, src, kinds);
    }
  }

  lemma WrittenReading(hs: Hashes, src: Source, kinds: seq<nat>)
    requires HashesFit(hs) && IsKinds(src, kinds) && Encodable(src, kinds)
    ensures ReadImage(ImageBytes(hs, src, kinds), src.schema) == WrittenImage(hs, src, kinds)
  {
    var data, plan := ImageBytes(hs, src, kinds), Plan(hs, src, kinds, Start(|kinds|));
    WrittenHeader(hs, src, kinds);
    WrittenBlanked(hs, src, kinds);
    HeaderRead(data, src.schema, HeadOf(src, kinds), hs.sha(Blanked(data)), hs.crc(HeaderPart(Blanked(data))));
    WrittenParts(hs, src, kinds);
    PlanFits(hs, src, kinds, Start(|kinds|));
    DirectoryRead(data, plan);
    WrittenDirectory(hs, src, kinds);
  }
}
