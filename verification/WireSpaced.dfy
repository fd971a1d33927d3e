/** Images with room before their first section.  The reader takes them like the written ones, so
    every written image has twins that hold the same sections and are not written again. */
module WireSpaced {
  import opened Ordering
  import opened FixedWidth
  import opened WireTable
  import opened WireImage
  import opened WireTiling
  import opened WireReader
  import opened WireWriter
  import opened WireRoundTrip

  // ----- Any directory and body, sealed

  /** The data is header, directory and body, under a seal that fits. */
  ghost predicate IsSealed(data: Bytes, hs: Hashes, h: Head, entries: seq<Entry>, body: Bytes)
  {
    && |data| == Start(|entries|) + |body|
    && At(data, 0, Front(h)) && At(data, 56, Seal(hs.sha(Blanked(data)), hs.crc(HeaderPart(Blanked(data)))))
    && At(data, HEADER, Directory(entries)) && At(data, Start(|entries|), body)
  }

  lemma SealOver(hs: Hashes, h: Head, entries: seq<Entry>, body: Bytes) returns (data: Bytes)
    requires HashesFit(hs) && AllFit(entries)
    ensures IsSealed(data, hs, h, entries, body)
  {
    var unsealed := Framed(h, Zeros(32), BLANK, entries, body);
    var digest, crc := hs.sha(unsealed), hs.crc(HeaderPart(unsealed));
    data := Framed(h, digest, crc, entries, body);
    FramedBlanked(h, digest, crc, entries, body);
    AllFitDigests(entries);
    FramedIff(data, h, digest, crc, entries, body);
  }

  /** Sealed data is accepted exactly when its directory is. */
  lemma SealedAccepted(data: Bytes, hs: Hashes, h: Head, entries: seq<Entry>, body: Bytes, image: Image)
    requires IsSealed(data, hs, h, entries, body) && HashesFit(hs) && AllFit(entries)
    requires HeadFits(h) && h.count == |entries| && h.total == |data|
    requires image == Image(h.minor, h.features, hs.sha(Blanked(data)), entries, SectionsOf(data, entries), h.schema)
    ensures Accepted(data, hs, h.schema, image) <==> DirectoryOk(data, hs, h.schema, h.minor, entries)
  {
    assert IsHeader(data, h.schema, h, image.digest, hs.crc(HeaderPart(Blanked(data))));
  }

  // ----- A gap of zeros behind the directory

  /** The head of an image whose first section starts at `first`. */
  function SpacedHead(src: Source, kinds: seq<nat>, first: nat): Head
  {
    HeadOf(src, kinds).(total := EndOf(src, kinds, first))
  }

  function SpacedBody(src: Source, kinds: seq<nat>, first: nat): (body: Bytes)
    requires Start(|kinds|) <= first
    ensures Start(|kinds|) + |body| == EndOf(src, kinds, first)
  {
    Zeros(first - Start(|kinds|)) + Body(SectionList(src, kinds))
  }

  function SpacedImage(hs: Hashes, src: Source, kinds: seq<nat>, first: nat, data: Bytes): Image
  {
    Image(src.minor, src.features, hs.sha(Blanked(data)), Plan(hs, src, kinds, first), src.sections, src.schema)
  }

  /** Sections that can be written from that place on. */
  ghost predicate Spaceable(src: Source, kinds: seq<nat>, first: nat)
  {
    && IsKinds(src, kinds) && Encodable(src, kinds)
    && Start(|kinds|) <= first && first % 8 == 0 && EndOf(src, kinds, first) < U64
  }

  /** Zeros before the first section do not disturb the tiling. */
  lemma TiledBehind(data: Bytes, start: nat, gap: nat, entries: seq<Entry>)
    requires Tiled(data, start + gap, entries) && At(data, start, Zeros(gap)) && entries != []
    ensures Tiled(data, start, entries)
  {
    forall p: nat | start <= p < |data|
      ensures data[p] == 0 || Covered(entries, p)
    {
      if p < start + gap {
        ZeroAmong(data, start, start + gap, p);
      }
    }
  }

  lemma RequiredFirst(kinds: seq<nat>)
    requires forall k: nat | Required(k) :: k in kinds
    ensures kinds != []
  {
    assert Required(1);
  }

  lemma SpacedDirectory(data: Bytes, hs: Hashes, src: Source, kinds: seq<nat>, first: nat)
    requires Carries(data, src, kinds, first) && |data| == EndOf(src, kinds, first) && first % 8 == 0
    requires Start(|kinds|) <= first && At(data, Start(|kinds|), Zeros(first - Start(|kinds|)))
    requires KindsRise(kinds) && forall k: nat | Required(k) :: k in kinds
    ensures DirectoryOk(data, hs, src.schema, src.minor, Plan(hs, src, kinds, first)) <==> SectionsOk(src, kinds)
  {
    RequiredFirst(kinds);
    PlanEntriesOk(data, hs, src, kinds, |kinds|, first);
    PlanHasRequired(hs, src, kinds, first);
    PlanTiled(data, hs, src, kinds, first);
    TiledBehind(data, Start(|kinds|), first - Start(|kinds|), Plan(hs, src, kinds, first));
  }

  lemma SpacedSections(data: Bytes, hs: Hashes, src: Source, kinds: seq<nat>, first: nat)
    requires Carries(data, src, kinds, first) && first % 8 == 0 && Start(0) <= first && IsKinds(src, kinds)
    ensures SectionsOf(data, Plan(hs, src, kinds, first)) == src.sections
  {
    PlanSections(data, hs, src, kinds, first);
    CollectedIsAll(src, kinds);
  }

  lemma SpacedFits(hs: Hashes, src: Source, kinds: seq<nat>, first: nat)
    requires HashesFit(hs) && Spaceable(src, kinds, first)
    ensures HeadFits(SpacedHead(src, kinds, first)) && AllFit(Plan(hs, src, kinds, first))
  {
    PlanFits(hs, src, kinds, first);
    HeadOfFits(src, kinds);
  }

  lemma SpacedCarries(data: Bytes, src: Source, kinds: seq<nat>, first: nat)
    requires Start(|kinds|) <= first && At(data, Start(|kinds|), SpacedBody(src, kinds, first))
    ensures At(data, Start(|kinds|), Zeros(first - Start(|kinds|))) && Carries(data, src, kinds, first)
  {
    AtSplit(data, Start(|kinds|), Zeros(first - Start(|kinds|)), Body(SectionList(src, kinds)));
  }

  lemma SpacedReads(data: Bytes, hs: Hashes, src: Source, kinds: seq<nat>, first: nat)
    requires Spaceable(src, kinds, first)
    requires At(data, Start(|kinds|), SpacedBody(src, kinds, first)) && |data| == EndOf(src, kinds, first)
    ensures DirectoryOk(data, hs, src.schema, src.minor, Plan(hs, src, kinds, first)) <==> SectionsOk(src, kinds)
    ensures SectionsOf(data, Plan(hs, src, kinds, first)) == src.sections
  {
    SpacedCarries(data, src, kinds, first);
    SpacedDirectory(data, hs, src, kinds, first);
    SpacedSections(data, hs, src, kinds, first);
  }

  ghost predicate IsSpaced(data: Bytes, hs: Hashes, src: Source, kinds: seq<nat>, first: nat)
    requires Start(|kinds|) <= first
  {
    IsSealed(data, hs, SpacedHead(src, kinds, first), Plan(hs, src, kinds, first), SpacedBody(src, kinds, first))
  }

  lemma SpacedAccepted(data: Bytes, hs: Hashes, src: Source, kinds: seq<nat>, first: nat)
    requires HashesFit(hs) && Spaceable(src, kinds, first) && IsSpaced(data, hs, src, kinds, first)
    ensures Accepted(data, hs, src.schema, SpacedImage(hs, src, kinds, first, data)) <==> SectionsOk(src, kinds)
  {
    SpacedFits(hs, src, kinds, first);
    SpacedReads(data, hs, src, kinds, first);
    SealedAccepted(data, hs, SpacedHead(src, kinds, first), Plan(hs, src, kinds, first), SpacedBody(src, kinds, first),
                   SpacedImage(hs, src, kinds, first, data));
  }

  // ----- The gap shows

  lemma {:induction false} CompactFirst(schema: nat, start: nat, entries: seq<Entry>)
    requires Compact(schema, start, entries) && entries != []
    ensures entries[0].offset == start
    decreases |entries|
  {
    if |entries| > 1 {
      CompactFirst(schema, start, entries[..|entries| - 1]);
    }
  }

  lemma {:induction false} PlanFirst(hs: Hashes, src: Source, kinds: seq<nat>, start: nat)
    requires kinds != []
    ensures Plan(hs, src, kinds, start)[0].offset == start
    decreases |kinds|
  {
    PlanLast(hs, src, kinds, start);
    if |kinds| > 1 {
      PlanFirst(hs, src, kinds[..|kinds| - 1], start);
    }
  }

  lemma GapShows(hs: Hashes, src: Source, kinds: seq<nat>, first: nat)
    requires kinds != [] && Start(|kinds|) < first
    ensures !Compact(src.schema, Start(|kinds|), Plan(hs, src, kinds, first))
  {
    PlanFirst(hs, src, kinds, first);
    if Compact(src.schema, Start(|kinds|), Plan(hs, src, kinds, first)) {
      CompactFirst(src.schema, Start(|kinds|), Plan(hs, src, kinds, first));
    }
  }

  /** Every written image has a twin for each later place its sections can start from: the twin is
      accepted exactly like it and holds the same sections, but its directory is not compact. */
  lemma Twins(hs: Hashes, src: Source, kinds: seq<nat>, first: nat) returns (data: Bytes, image: Image)
    requires HashesFit(hs) && Spaceable(src, kinds, first) && Start(|kinds|) < first
    ensures Accepted(data, hs, src.schema, image) <==> SectionsOk(src, kinds)
    ensures SourceOf(image) == src && !Compact(src.schema, Start(|image.entries|), image.entries)
  {
    SpacedFits(hs, src, kinds, first);
    data := SealOver(hs, SpacedHead(src, kinds, first), Plan(hs, src, kinds, first), SpacedBody(src, kinds, first));
    image := SpacedImage(hs, src, kinds, first, data);
    SpacedAccepted(data, hs, src, kinds, first);
    RequiredFirst(kinds);
    GapShows(hs, src, kinds, first);
  }

  // ----- An image of empty tables

  function FirstKinds(n: nat): (kinds: seq<nat>)
    ensures |kinds| == n
  {
    if n == 0 then [] else FirstKinds(n - 1) + [n]
  }

  /** The same section for each of these kinds. */
  function Alike(n: nat, section: Bytes): map<nat, Bytes>
  {
    if n == 0 then map[] else Alike(n - 1, section)[n := section]
  }

  lemma {:induction false} FirstKindsAre(n: nat, k: nat, section: Bytes)
    ensures k in FirstKinds(n) <==> 1 <= k <= n
    ensures k in Alike(n, section) <==> 1 <= k <= n
    ensures 1 <= k <= n ==> Alike(n, section)[k] == section
  {
    if n > 0 {
      FirstKindsAre(n - 1, k, section);
    }
  }

  lemma FirstKindsLast(n: nat)
    requires n > 0
    ensures FirstKinds(n)[..n - 1] == FirstKinds(n - 1) && FirstKinds(n)[n - 1] == n
  {
  }

  lemma {:induction false} FirstKindsRise(n: nat)
    ensures KindsRise(FirstKinds(n)) && (n < U16 ==> KindsFit(FirstKinds(n)))
  {
    if n > 0 {
      FirstKindsRise(n - 1);
      FirstKindsLast(n);
      if n > 1 {
        FirstKindsLast(n - 1);
      }
    }
  }

  lemma EmptyTable()
    ensures |EncodeTable([])| == 16 && Regular(EncodeTable([]), Word(EncodeTable([]), 0))
  {
    var rows: seq<Bytes> := [];
    TableIsRegular(EncodeTable(rows), rows);
  }

  lemma BodyGrows(sections: seq<Bytes>, n: nat)
    requires sections != [] && |Body(sections[..|sections| - 1])| == 16 * n && |sections[|sections| - 1]| == 16
    ensures |Body(sections)| == 16 * (n + 1)
  {
    assert Align(16 * n) == 16 * n;
  }

  lemma {:induction false} AlikeBody(src: Source, n: nat, section: Bytes)
    requires |section| == 16 && forall k: nat | 1 <= k <= n :: SectionAt(src, k) == section
    ensures |Body(SectionList(src, FirstKinds(n)))| == 16 * n
  {
    if n > 0 {
      AlikeBody(src, n - 1, section);
      FirstKindsLast(n);
      ListLast(src, FirstKinds(n));
      BodyGrows(SectionList(src, FirstKinds(n)), n - 1);
    }
  }

  lemma {:induction false} AlikeOk(src: Source, n: nat, section: Bytes)
    requires n <= 14 && forall k: nat | 1 <= k <= n :: SectionAt(src, k) == section
    requires Regular(section, Word(section, 0))
    ensures SectionsOk(src, FirstKinds(n))
  {
    if n > 0 {
      AlikeOk(src, n - 1, section);
      FirstKindsLast(n);
      AlikeOne(src, n, section);
    }
  }

  lemma AlikeOne(src: Source, k: nat, section: Bytes)
    requires 1 <= k <= 14 && SectionAt(src, k) == section && Regular(section, Word(section, 0))
    ensures SectionOk(src, k)
  {
  }

  lemma AlikeFits(src: Source, n: nat, section: Bytes)
    requires n == 14 && src == Source(Alike(n, section), 0, 0, 1) && |section| == 16
    requires Regular(section, Word(section, 0))
    ensures IsKinds(src, FirstKinds(n)) && EndOf(src, FirstKinds(n), Start(n) + 8) < U64 && KindsFit(FirstKinds(n))
    ensures SectionsOk(src, FirstKinds(n)) && forall k: nat | Required(k) :: k in FirstKinds(n)
  {
    forall k: nat
      ensures (k in FirstKinds(n) <==> k in src.sections) && (Required(k) ==> k in FirstKinds(n))
      ensures 1 <= k <= n ==> SectionAt(src, k) == section
    {
      FirstKindsAre(n, k, section);
    }
    FirstKindsRise(n);
    AlikeBody(src, n, section);
    AlikeOk(src, n, section);
  }

  lemma AlikeSpaceable(src: Source, n: nat, section: Bytes)
    requires n == 14 && src == Source(Alike(n, section), 0, 0, 1) && |section| == 16
    requires Regular(section, Word(section, 0))
    ensures Spaceable(src, FirstKinds(n), Start(n) + 8) && SectionsOk(src, FirstKinds(n))
  {
    AlikeFits(src, n, section);
    StartAligned(n);
  }

  /** Whatever the hashes, some accepted image is not written again byte for byte. */
  lemma OtherLayouts(hs: Hashes) returns (data: Bytes, image: Image)
    requires HashesFit(hs)
    ensures Accepted(data, hs, image.schema, image)
    ensures !Compact(image.schema, Start(|image.entries|), image.entries)
    ensures ImageBytes(hs, SourceOf(image), KindList(image.entries)) != data
  {
    var n: nat :| n == 14;
    var src := Source(Alike(n, EncodeTable([])), 0, 0, 1);
    EmptyTable();
    AlikeSpaceable(src, n, EncodeTable([]));
    data, image := Twins(hs, src, FirstKinds(n), Start(n) + 8);
    ReproducedIffCompact(data, hs, image);
  }
}
