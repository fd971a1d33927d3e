/** Reading and writing again: which images come back byte for byte. */
module WireRoundTrip {
  import opened Ordering
  import opened FixedWidth
  import opened WireTable
  import opened WireImage
  import opened WireTiling
  import opened WireReader
  import opened WireWriter
  import opened WireEncode

  /** The layout the encoder chooses: every section at the next aligned place, and nothing said of
      a section whose kind is not known. The reader asks for neither. */
  predicate Compact(schema: nat, start: nat, entries: seq<Entry>)
  {
    if entries == [] then true
    else
      var init, last := entries[..|entries| - 1], entries[|entries| - 1];
      && Compact(schema, start, init)
      && last.offset == NextOffset(start, init)
      && (!Known(schema, last.kind) ==> last.schema == 1 && last.rows == 0)
  }

  function KindList(entries: seq<Entry>): (kinds: seq<nat>)
    ensures |kinds| == |entries|
  {
    if entries == [] then [] else KindList(entries[..|entries| - 1]) + [entries[|entries| - 1].kind]
  }

  function SourceOf(image: Image): Source
  {
    Source(image.sections, image.minor, image.features, image.schema)
  }

  // ----- The entries of an accepted image

  lemma KindListLast(entries: seq<Entry>)
    requires entries != []
    ensures var n := |entries| - 1;
      KindList(entries)[..n] == KindList(entries[..n]) && KindList(entries)[n] == entries[n].kind
  {
  }

  lemma {:induction false} KindListRises(data: Bytes, hs: Hashes, schema: nat, minor: nat, count: nat,
                                         entries: seq<Entry>)
    requires EntriesOk(data, hs, schema, minor, count, entries)
    ensures KindsRise(KindList(entries))
    decreases |entries|
  {
    if entries != [] {
      var n := |entries| - 1;
      KindListRises(data, hs, schema, minor, count, entries[..n]);
      KindListLast(entries);
      if n > 0 {
        KindListLast(entries[..n]);
      }
    }
  }

  lemma {:induction false} KindListMember(data: Bytes, entries: seq<Entry>, k: nat)
    ensures k in KindList(entries) <==> k in SectionsOf(data, entries)
    decreases |entries|
  {
    if entries != [] {
      var n := |entries| - 1;
      KindListMember(data, entries[..n], k);
      KindListLast(entries);
      assert k in KindList(entries) <==> k in KindList(entries)[..n] || k == KindList(entries)[n];
    }
  }

  lemma {:induction false} EntryKindListed(entries: seq<Entry>, e: Entry)
    requires e in entries
    ensures e.kind in KindList(entries)
    decreases |entries|
  {
    var n := |entries| - 1;
    KindListLast(entries);
    if e != entries[n] {
      EntryKindListed(entries[..n], e);
    }
  }

  /** A section is found under the kind of its entry. */
  lemma {:induction false} SectionsAt(data: Bytes, hs: Hashes, schema: nat, minor: nat, count: nat,
                                      entries: seq<Entry>, e: Entry)
    requires EntriesOk(data, hs, schema, minor, count, entries) && e in entries
    ensures e.kind in SectionsOf(data, entries) && SectionsOf(data, entries)[e.kind] == Section(data, e)
    ensures EntryOk(data, hs, schema, minor, count, e)
    decreases |entries|
  {
    var n := |entries| - 1;
    if e != entries[n] {
      SectionsAt(data, hs, schema, minor, count, entries[..n], e);
      KindListRises(data, hs, schema, minor, count, entries);
      KindListLast(entries);
      EntryKindListed(entries[..n], e);
      KindsBelow(KindList(entries), e.kind);
    }
  }

  lemma {:induction false} FlaggedMember(entries: seq<Entry>, k: nat)
    ensures k in Flagged(entries) <==> exists e :: e in entries && e.flags == 1 && e.kind == k
    decreases |entries|
  {
    if entries != [] {
      var n := |entries| - 1;
      FlaggedMember(entries[..n], k);
      if e :| e in entries && e.flags == 1 && e.kind == k {
        assert e == entries[n] || e in entries[..n];
      }
      assert entries[n] in entries;
      assert forall e | e in entries[..n] :: e in entries;
    }
  }

  lemma {:induction false} OneEntryPerKind(data: Bytes, hs: Hashes, schema: nat, minor: nat, count: nat,
                                           entries: seq<Entry>, x: Entry, y: Entry)
    requires EntriesOk(data, hs, schema, minor, count, entries) && x in entries && y in entries && x.kind == y.kind
    ensures x == y
  {
    var i :| 0 <= i < |entries| && entries[i] == x;
    var j :| 0 <= j < |entries| && entries[j] == y;
    if i < j {
      EntriesOkKinds(data, hs, schema, minor, count, entries, i, j);
    } else if j < i {
      EntriesOkKinds(data, hs, schema, minor, count, entries, j, i);
    }
  }

  /** An entry that says of its section what the section is. */
  ghost predicate Faithful(data: Bytes, hs: Hashes, src: Source, count: nat, e: Entry)
  {
    && EntryOk(data, hs, src.schema, src.minor, count, e)
    && SectionAt(src, e.kind) == Section(data, e) && e.stored == |Section(data, e)|
    && (e.flags == 1 <==> Required(e.kind))
  }

  lemma EntryFaithful(data: Bytes, hs: Hashes, src: Source, entries: seq<Entry>, e: Entry)
    requires EntriesOk(data, hs, src.schema, src.minor, |entries|, entries) && HasRequired(entries)
    requires src.sections == SectionsOf(data, entries) && e in entries
    ensures Faithful(data, hs, src, |entries|, e)
  {
    SectionsAt(data, hs, src.schema, src.minor, |entries|, entries, e);
    SliceAt(data, e.offset, End(e));
    assert Required(e.kind) <==> e.kind in RequiredKinds();
    FlaggedMember(entries, e.kind);
    if Required(e.kind) {
      var other :| other in entries && other.flags == 1 && other.kind == e.kind;
      OneEntryPerKind(data, hs, src.schema, src.minor, |entries|, entries, e, other);
    }
  }

  ghost predicate AllFaithful(data: Bytes, hs: Hashes, src: Source, count: nat, entries: seq<Entry>)
  {
    || entries == []
    || (&& AllFaithful(data, hs, src, count, entries[..|entries| - 1])
        && Faithful(data, hs, src, count, entries[|entries| - 1]))
  }

  lemma {:induction false} PrefixFaithful(data: Bytes, hs: Hashes, src: Source, entries: seq<Entry>, k: nat)
    requires EntriesOk(data, hs, src.schema, src.minor, |entries|, entries) && HasRequired(entries)
    requires src.sections == SectionsOf(data, entries) && k <= |entries|
    ensures AllFaithful(data, hs, src, |entries|, entries[..k])
    decreases k
  {
    if k > 0 {
      PrefixFaithful(data, hs, src, entries, k - 1);
      EntryFaithful(data, hs, src, entries, entries[k - 1]);
      assert entries[..k][..k - 1] == entries[..k - 1];
    }
  }

  // ----- Compact directories are planned ones

  lemma RegularCount(section: Bytes, rows: nat)
    requires Regular(section, rows)
    ensures Word(section, 0) == rows
  {
  }

  lemma PlannedEntry(data: Bytes, hs: Hashes, src: Source, count: nat, e: Entry, offset: nat)
    requires Faithful(data, hs, src, count, e)
    ensures e == PlanEntry(hs, src, e.kind, offset) <==>
            e.offset == offset && (!Known(src.schema, e.kind) ==> e.schema == 1 && e.rows == 0)
  {
    if Known(src.schema, e.kind) {
      RegularCount(Section(data, e), e.rows);
    }
  }

  lemma {:induction false} CompactIsPlan(data: Bytes, hs: Hashes, src: Source, count: nat, entries: seq<Entry>)
    requires AllFaithful(data, hs, src, count, entries)
    ensures IsPlan(hs, src, KindList(entries), Start(count), entries) <==> Compact(src.schema, Start(count), entries)
    decreases |entries|
  {
    if entries != [] {
      var n := |entries| - 1;
      CompactIsPlan(data, hs, src, count, entries[..n]);
      KindListLast(entries);
      PlannedEntry(data, hs, src, count, entries[n], NextOffset(Start(count), entries[..n]));
    }
  }

  // ----- A compact image carries its body

  lemma {:induction false} CompactBelow(schema: nat, start: nat, entries: seq<Entry>, x: Entry)
    requires Compact(schema, start, entries) && x in entries
    ensures End(x) <= End(entries[|entries| - 1])
    decreases |entries|
  {
    var n := |entries| - 1;
    if x != entries[n] {
      CompactBelow(schema, start, entries[..n], x);
      AlignUp(End(entries[n - 1]));
    }
  }

  lemma {:induction false} CompactPrefix(schema: nat, start: nat, entries: seq<Entry>, k: nat)
    requires Compact(schema, start, entries) && k <= |entries|
    ensures Compact(schema, start, entries[..k])
    decreases |entries|
  {
    if k == |entries| {
      assert entries[..k] == entries;
    } else {
      CompactPrefix(schema, start, entries[..|entries| - 1], k);
      assert entries[..|entries| - 1][..k] == entries[..k];
    }
  }

  lemma CompactOrder(schema: nat, start: nat, entries: seq<Entry>, i: nat, j: nat)
    requires Compact(schema, start, entries) && i < j < |entries|
    ensures End(entries[i]) <= entries[j].offset
  {
    CompactPrefix(schema, start, entries, j + 1);
    CompactPrefix(schema, start, entries, j);
    var upTo := entries[..j + 1];
    assert upTo[..j] == entries[..j];
    assert entries[..j][i] == entries[i];
    CompactBelow(schema, start, entries[..j], entries[i]);
    AlignUp(End(entries[j - 1]));
  }

  /** Where the first sections end. */
  function EndUpTo(start: nat, entries: seq<Entry>, k: nat): nat
    requires k <= |entries|
  {
    if k == 0 then start else End(entries[k - 1])
  }

  lemma NotCovered(schema: nat, start: nat, entries: seq<Entry>, k: nat, p: nat)
    requires Compact(schema, start, entries) && k < |entries| && EndUpTo(start, entries, k) <= p < entries[k].offset
    ensures !Covered(entries, p)
  {
    if Covered(entries, p) {
      var x :| x in entries && x.offset <= p < End(x);
      var i :| 0 <= i < |entries| && entries[i] == x;
      if i < k {
        CompactPrefix(schema, start, entries, k);
        assert entries[..k][i] == x;
        CompactBelow(schema, start, entries[..k], x);
      } else if k < i {
        CompactOrder(schema, start, entries, k, i);
      }
    }
  }

  /** Before every section of a compact image there are only zeros. */
  lemma GapZero(data: Bytes, schema: nat, start: nat, entries: seq<Entry>, k: nat)
    requires Compact(schema, start, entries) && Tiled(data, start, entries) && k < |entries|
    ensures var from := EndUpTo(start, entries, k);
      from <= entries[k].offset <= |data| && At(data, from, Zeros(entries[k].offset - from))
  {
    var from, to := EndUpTo(start, entries, k), entries[k].offset;
    GapBounds(data, schema, start, entries, k);
    forall p: nat | from <= p < to
      ensures data[p] == 0
    {
      NotCovered(schema, start, entries, k, p);
      OtherZero(data, start, entries, p);
    }
    ZeroUpTo(data, from, to);
    ZerosAt(data, from, to);
  }

  lemma GapBounds(data: Bytes, schema: nat, start: nat, entries: seq<Entry>, k: nat)
    requires Compact(schema, start, entries) && Tiled(data, start, entries) && k < |entries|
    ensures start <= EndUpTo(start, entries, k) <= entries[k].offset <= |data|
  {
    assert entries[k] in entries;
    if k > 0 {
      CompactOrder(schema, start, entries, k - 1, k);
      assert entries[k - 1] in entries;
    }
  }

  lemma OtherZero(data: Bytes, start: nat, entries: seq<Entry>, p: nat)
    requires OtherwiseZero(data, start, entries) && start <= p < |data| && !Covered(entries, p)
    ensures data[p] == 0
  {
  }

  /** A section the source has, where its entry says. */
  ghost predicate Held(data: Bytes, src: Source, e: Entry)
  {
    End(e) <= |data| && SectionAt(src, e.kind) == Section(data, e)
  }

  ghost predicate AllHeld(data: Bytes, src: Source, entries: seq<Entry>)
  {
    entries == [] || (AllHeld(data, src, entries[..|entries| - 1]) && Held(data, src, entries[|entries| - 1]))
  }

  lemma {:induction false} FaithfulHeld(data: Bytes, hs: Hashes, src: Source, count: nat, entries: seq<Entry>)
    requires AllFaithful(data, hs, src, count, entries)
    ensures AllHeld(data, src, entries)
    decreases |entries|
  {
    if entries != [] {
      FaithfulHeld(data, hs, src, count, entries[..|entries| - 1]);
    }
  }

  lemma {:induction false} HeldAt(data: Bytes, src: Source, entries: seq<Entry>, k: nat)
    requires AllHeld(data, src, entries) && k < |entries|
    ensures Held(data, src, entries[k])
    decreases |entries|
  {
    if k < |entries| - 1 {
      HeldAt(data, src, entries[..|entries| - 1], k);
    }
  }

  /** One more section in its place. */
  lemma CarriesNext(data: Bytes, src: Source, kinds: seq<nat>, start: nat, e: Entry, previous: seq<nat>, from: nat)
    requires IsLast(src, kinds, start, e) && previous == kinds[..|kinds| - 1]
    requires from == EndOf(src, previous, start) <= e.offset
    requires Carries(data, src, previous, start)
    requires At(data, from, Zeros(e.offset - from)) && At(data, e.offset, SectionAt(src, e.kind))
    ensures Carries(data, src, kinds, start) && EndOf(src, kinds, start) == End(e)
  {
    ListLast(src, kinds);
    EndStep(src, kinds, start);
    BodyAt(data, start, SectionList(src, kinds), from, e.offset);
  }

  function EndIn(start: nat, entries: seq<Entry>): nat
  {
    if entries == [] then start else End(entries[|entries| - 1])
  }

  /** A section behind zeros that reach up to it. */
  ghost predicate Spot(data: Bytes, src: Source, from: nat, e: Entry)
  {
    && from <= e.offset && At(data, from, Zeros(e.offset - from))
    && At(data, e.offset, SectionAt(src, e.kind)) && e.stored == |SectionAt(src, e.kind)|
  }

  ghost predicate Spots(data: Bytes, src: Source, start: nat, entries: seq<Entry>)
  {
    if entries == [] then true
    else
      var init, last := entries[..|entries| - 1], entries[|entries| - 1];
      Spots(data, src, start, init) && Spot(data, src, EndIn(start, init), last)
  }

  lemma OneSpot(data: Bytes, src: Source, schema: nat, start: nat, entries: seq<Entry>, k: nat)
    requires Compact(schema, start, entries) && Tiled(data, start, entries) && AllHeld(data, src, entries)
    requires k < |entries|
    ensures Spot(data, src, EndUpTo(start, entries, k), entries[k])
  {
    GapZero(data, schema, start, entries, k);
    HeldAt(data, src, entries, k);
    SliceAt(data, entries[k].offset, End(entries[k]));
  }

  lemma {:induction false} CompactSpots(data: Bytes, src: Source, schema: nat, start: nat, entries: seq<Entry>, k: nat)
    requires Compact(schema, start, entries) && Tiled(data, start, entries) && AllHeld(data, src, entries)
    requires k <= |entries|
    ensures Spots(data, src, start, entries[..k])
    decreases k
  {
    if k > 0 {
      CompactSpots(data, src, schema, start, entries, k - 1);
      OneSpot(data, src, schema, start, entries, k - 1);
      SpotsAppend(data, src, start, entries, k - 1);
    }
  }

  lemma SpotsAppend(data: Bytes, src: Source, start: nat, entries: seq<Entry>, k: nat)
    requires k < |entries| && Spots(data, src, start, entries[..k])
    requires Spot(data, src, EndUpTo(start, entries, k), entries[k])
    ensures Spots(data, src, start, entries[..k + 1])
  {
    TakeNext(entries, k);
  }

  lemma NextAligned(count: nat, init: seq<Entry>, n: nat)
    requires Start(count) + n == EndIn(Start(count), init)
    ensures NextOffset(Start(count), init) == Start(count) + Align(n)
  {
    AlignShift(count, n);
  }

  lemma {:induction false} SpotIsLast(schema: nat, src: Source, count: nat, entries: seq<Entry>)
    requires Compact(schema, Start(count), entries) && entries != []
    requires EndOf(src, KindList(entries[..|entries| - 1]), Start(count))
         == EndIn(Start(count), entries[..|entries| - 1])
    requires entries[|entries| - 1].stored == |SectionAt(src, entries[|entries| - 1].kind)|
    ensures IsLast(src, KindList(entries), Start(count), entries[|entries| - 1])
  {
    KindListLast(entries);
    NextAligned(count, entries[..|entries| - 1], |Body(SectionList(src, KindList(entries[..|entries| - 1])))|);
  }

  /** A compact image holds the body the encoder would lay out. */
  lemma {:induction false} CompactCarries(data: Bytes, schema: nat, src: Source, count: nat, entries: seq<Entry>)
    requires Compact(schema, Start(count), entries) && Start(count) <= |data| && Spots(data, src, Start(count), entries)
    ensures Carries(data, src, KindList(entries), Start(count))
    ensures EndOf(src, KindList(entries), Start(count)) == EndIn(Start(count), entries)
    decreases |entries|
  {
    if entries != [] {
      var init, last := entries[..|entries| - 1], entries[|entries| - 1];
      CompactCarries(data, schema, src, count, init);
      SpotIsLast(schema, src, count, entries);
      KindListLast(entries);
      CarriesNext(data, src, KindList(entries), Start(count), last, KindList(init), EndIn(Start(count), init));
    }
  }

  lemma CompactEnds(data: Bytes, schema: nat, start: nat, entries: seq<Entry>)
    requires Compact(schema, start, entries) && Tiled(data, start, entries)
    ensures EndIn(start, entries) == |data|
  {
    if entries != [] {
      var e :| e in entries && End(e) == |data|;
      CompactBelow(schema, start, entries, e);
      assert entries[|entries| - 1] in entries;
    }
  }

  // ----- Writing again

  lemma DirectoryCarries(data: Bytes, hs: Hashes, src: Source, entries: seq<Entry>)
    requires DirectoryOk(data, hs, src.schema, src.minor, entries) && src.sections == SectionsOf(data, entries)
    requires Compact(src.schema, Start(|entries|), entries) && Start(|entries|) <= |data|
    ensures entries == Plan(hs, src, KindList(entries), Start(|entries|))
    ensures Carries(data, src, KindList(entries), Start(|entries|))
    ensures |data| == EndOf(src, KindList(entries), Start(|entries|))
  {
    assert entries[..|entries|] == entries;
    PrefixFaithful(data, hs, src, entries, |entries|);
    CompactIsPlan(data, hs, src, |entries|, entries);
    PlanUnique(hs, src, KindList(entries), |entries|, entries);
    FaithfulHeld(data, hs, src, |entries|, entries);
    CompactSpots(data, src, src.schema, Start(|entries|), entries, |entries|);
    CompactCarries(data, src.schema, src, |entries|, entries);
    CompactEnds(data, src.schema, Start(|entries|), entries);
  }

  /** An accepted image is framed around its body. */
  lemma AcceptedFramed(data: Bytes, hs: Hashes, image: Image, h: Head, body: Bytes)
    requires Accepted(data, hs, image.schema, image)
    requires h == Head(image.minor, image.features, |image.entries|, image.schema, |data|)
    requires At(data, Start(|image.entries|), body) && |data| == Start(|image.entries|) + |body|
    ensures data == Framed(h, image.digest, hs.crc(HeaderPart(Blanked(data))), image.entries, body)
  {
    AllFitDigests(image.entries);
    FramedIff(data, h, image.digest, hs.crc(HeaderPart(Blanked(data))), image.entries, body);
  }

  lemma CarriedFramed(data: Bytes, hs: Hashes, image: Image, src: Source, kinds: seq<nat>)
    requires Accepted(data, hs, image.schema, image)
    requires src.minor == image.minor && src.features == image.features && src.schema == image.schema
    requires |kinds| == |image.entries|
    requires Carries(data, src, kinds, Start(|kinds|)) && |data| == EndOf(src, kinds, Start(|kinds|))
    ensures data == Framed(HeadOf(src, kinds), image.digest, hs.crc(HeaderPart(Blanked(data))), image.entries,
                           Body(SectionList(src, kinds)))
  {
    AcceptedFramed(data, hs, image, HeadOf(src, kinds), Body(SectionList(src, kinds)));
  }

  /** The bytes of an accepted image with a compact directory. */
  lemma CompactFramed(data: Bytes, hs: Hashes, image: Image)
    requires Accepted(data, hs, image.schema, image)
    requires Compact(image.schema, Start(|image.entries|), image.entries)
    ensures data
         == Framed(HeadOf(SourceOf(image), KindList(image.entries)), image.digest, hs.crc(HeaderPart(Blanked(data))),
                   image.entries, Body(SectionList(SourceOf(image), KindList(image.entries))))
    ensures image.entries == Plan(hs, SourceOf(image), KindList(image.entries), Start(|image.entries|))
  {
    DirectoryCarries(data, hs, SourceOf(image), image.entries);
    CarriedFramed(data, hs, image, SourceOf(image), KindList(image.entries));
  }

  lemma CompactReproduces(data: Bytes, hs: Hashes, image: Image)
    requires HashesFit(hs) && Accepted(data, hs, image.schema, image)
    requires Compact(image.schema, Start(|image.entries|), image.entries)
    ensures ImageBytes(hs, SourceOf(image), KindList(image.entries)) == data
  {
    var src, kinds := SourceOf(image), KindList(image.entries);
    CompactFramed(data, hs, image);
    FramedBlanked(HeadOf(src, kinds), image.digest, hs.crc(HeaderPart(Blanked(data))), image.entries,
                  Body(SectionList(src, kinds)));
  }

  lemma {:induction false} KindListFits(entries: seq<Entry>)
    requires AllFit(entries)
    ensures KindsFit(KindList(entries))
  {
    if entries != [] {
      KindListFits(entries[..|entries| - 1]);
      KindListLast(entries);
      Widths();
    }
  }

  /** Bytes that hold two directories of one length hold the same directory. */
  lemma OneDirectory(data: Bytes, x: seq<Entry>, y: seq<Entry>)
    requires At(data, HEADER, Directory(x)) && AllFit(x) && At(data, HEADER, Directory(y)) && AllFit(y) && |x| == |y|
    ensures x == y
  {
    DirectoryRead(data, x);
    DirectoryRead(data, y);
  }

  lemma ReproducedParts(data: Bytes, hs: Hashes, src: Source, kinds: seq<nat>)
    requires HashesFit(hs) && ImageBytes(hs, src, kinds) == data && |data| < U64 && KindsFit(kinds)
    ensures At(data, HEADER, Directory(Plan(hs, src, kinds, Start(|kinds|))))
    ensures AllFit(Plan(hs, src, kinds, Start(|kinds|)))
  {
    var unsealed, plan := Unsealed(hs, src, kinds), Plan(hs, src, kinds, Start(|kinds|));
    PlanDigests(hs, src, kinds, Start(|kinds|));
    FramedIff(data, HeadOf(src, kinds), hs.sha(unsealed), hs.crc(HeaderPart(unsealed)), plan,
              Body(SectionList(src, kinds)));
    PlanFits(hs, src, kinds, Start(|kinds|));
  }

  lemma ReproducedCompact(data: Bytes, hs: Hashes, image: Image)
    requires HashesFit(hs) && Accepted(data, hs, image.schema, image)
    requires ImageBytes(hs, SourceOf(image), KindList(image.entries)) == data
    ensures Compact(image.schema, Start(|image.entries|), image.entries)
  {
    var src, entries := SourceOf(image), image.entries;
    Widths();
    KindListFits(entries);
    ReproducedParts(data, hs, src, KindList(entries));
    OneDirectory(data, entries, Plan(hs, src, KindList(entries), Start(|entries|)));
    PlannedCompact(data, hs, src, entries);
  }

  lemma PlannedCompact(data: Bytes, hs: Hashes, src: Source, entries: seq<Entry>)
    requires DirectoryOk(data, hs, src.schema, src.minor, entries) && src.sections == SectionsOf(data, entries)
    requires entries == Plan(hs, src, KindList(entries), Start(|entries|))
    ensures Compact(src.schema, Start(|entries|), entries)
  {
    assert entries[..|entries|] == entries;
    PrefixFaithful(data, hs, src, entries, |entries|);
    CompactIsPlan(data, hs, src, |entries|, entries);
    PlanUnique(hs, src, KindList(entries), |entries|, entries);
  }

  /** An accepted image is written again byte for byte exactly when its directory is compact. */
  lemma ReproducedIffCompact(data: Bytes, hs: Hashes, image: Image)
    requires HashesFit(hs) && Accepted(data, hs, image.schema, image)
    ensures ImageBytes(hs, SourceOf(image), KindList(image.entries)) == data <==>
            Compact(image.schema, Start(|image.entries|), image.entries)
  {
    if Compact(image.schema, Start(|image.entries|), image.entries) {
      CompactReproduces(data, hs, image);
    } else if ImageBytes(hs, SourceOf(image), KindList(image.entries)) == data {
      ReproducedCompact(data, hs, image);
    }
  }

  // ----- The writer on what the reader returned

  lemma AcceptedKinds(data: Bytes, hs: Hashes, image: Image)
    requires Accepted(data, hs, image.schema, image)
    ensures IsKinds(SourceOf(image), KindList(image.entries))
  {
    KindListRises(data, hs, image.schema, image.minor, |image.entries|, image.entries);
    forall k: nat
      ensures k in KindList(image.entries) <==> k in image.sections
    {
      KindListMember(data, image.entries, k);
    }
  }

  lemma {:induction false} RisingAscends(kinds: seq<nat>, i: nat, j: nat)
    requires KindsRise(kinds) && i < j < |kinds|
    ensures kinds[i] < kinds[j]
    decreases |kinds|
  {
    var n := |kinds| - 1;
    if j < n {
      RisingAscends(kinds[..n], i, j);
    } else {
      assert kinds[..n][i] == kinds[i];
      KindsBelow(kinds, kinds[i]);
    }
  }

  lemma KindsAscend(kinds: seq<nat>)
    requires KindsRise(kinds)
    ensures Ascending(kinds, KindOrder)
  {
    forall i, j | 0 <= i < j < |kinds|
      ensures LexLess(KindOrder(kinds[i]), KindOrder(kinds[j]))
    {
      RisingAscends(kinds, i, j);
    }
  }

  lemma KindsUnique(src: Source, x: seq<nat>, y: seq<nat>)
    requires IsKinds(src, x) && IsKinds(src, y)
    ensures x == y
  {
    KindsAscend(x);
    KindsAscend(y);
    AscendingUnique(x, y, KindOrder);
  }

  lemma {:induction false} FaithfulCounted(data: Bytes, hs: Hashes, src: Source, count: nat, entries: seq<Entry>)
    requires AllFaithful(data, hs, src, count, entries)
    ensures AllCounted(src, KindList(entries))
    decreases |entries|
  {
    if entries != [] {
      FaithfulCounted(data, hs, src, count, entries[..|entries| - 1]);
      KindListLast(entries);
    }
  }

  lemma AllRequiredListed(entries: seq<Entry>, k: nat)
    requires HasRequired(entries) && Required(k)
    ensures k in KindList(entries)
  {
    assert Required(k) <==> k in RequiredKinds();
    FlaggedMember(entries, k);
    var e :| e in entries && e.flags == 1 && e.kind == k;
    EntryKindListed(entries, e);
  }

  lemma DirectoryCounted(data: Bytes, hs: Hashes, src: Source, entries: seq<Entry>)
    requires DirectoryOk(data, hs, src.schema, src.minor, entries) && src.sections == SectionsOf(data, entries)
    ensures AllCounted(src, KindList(entries)) && forall k: nat | Required(k) :: k in KindList(entries)
  {
    forall k: nat | Required(k)
      ensures k in KindList(entries)
    {
      AllRequiredListed(entries, k);
    }
    assert entries[..|entries|] == entries;
    PrefixFaithful(data, hs, src, entries, |entries|);
    FaithfulCounted(data, hs, src, |entries|, entries);
  }

  lemma CompactFieldsFit(data: Bytes, hs: Hashes, image: Image)
    requires Accepted(data, hs, image.schema, image)
    requires Compact(image.schema, Start(|image.entries|), image.entries)
    ensures FieldsFit(SourceOf(image), KindList(image.entries))
  {
    Widths();
    KindListFits(image.entries);
    DirectoryCarries(data, hs, SourceOf(image), image.entries);
  }

  lemma CompactPackable(data: Bytes, hs: Hashes, image: Image)
    requires Accepted(data, hs, image.schema, image)
    requires Compact(image.schema, Start(|image.entries|), image.entries)
    ensures Packable(SourceOf(image), KindList(image.entries))
  {
    CompactFieldsFit(data, hs, image);
    DirectoryCounted(data, hs, SourceOf(image), image.entries);
  }

  /** Encode an image again under the model schema it was read with. */
  method Reencode(hs: Hashes, image: Image) returns (r: Option<Bytes>, kinds: seq<nat>)
    requires HashesFit(hs)
    ensures r.Some? ==> IsKinds(SourceOf(image), kinds) && r.value == ImageBytes(hs, SourceOf(image), kinds)
    ensures r.None? <==> (image.schema != 1 && image.schema != 2) || !Packable(SourceOf(image), kinds)
    ensures IsKinds(SourceOf(image), kinds)
  {
    r, kinds := EncodeSections(hs, SourceOf(image));
    if image.schema != 1 && image.schema != 2 {
      r := None;
    }
  }

  /** Read, and write again: the same bytes come back exactly from compact images. */
  method ReadAndReencode(data: Bytes, hs: Hashes, schema: nat) returns (image: Option<Image>, again: Option<Bytes>)
    requires HashesFit(hs) && (schema == 1 || schema == 2)
    ensures image.Some? ==> Accepted(data, hs, schema, image.value)
    ensures image.Some? ==>
              (again == Some(data) <==> Compact(schema, Start(|image.value.entries|), image.value.entries))
  {
    image := ReadWire(data, hs, schema);
    again := None;
    if image.Some? {
      var kinds;
      again, kinds := Reencode(hs, image.value);
      AcceptedKinds(data, hs, image.value);
      KindsUnique(SourceOf(image.value), kinds, KindList(image.value.entries));
      ReproducedIffCompact(data, hs, image.value);
      if Compact(schema, Start(|image.value.entries|), image.value.entries) {
        CompactPackable(data, hs, image.value);
      }
    }
  }

  /** Encode, read, and encode again: reading succeeds exactly when every section is allowed, gives
      back the sections, and writing them again gives the first image. */
  method EncodeAndReturn(hs: Hashes, src: Source)
    returns (first: Option<Bytes>, kinds: seq<nat>, image: Option<Image>, again: Option<Bytes>)
    requires HashesFit(hs) && (src.schema == 1 || src.schema == 2)
    ensures IsKinds(src, kinds) && (first.Some? <==> Packable(src, kinds))
    ensures first.Some? ==> (image.Some? <==> SectionsOk(src, kinds))
    ensures first.Some? && image.Some? ==> SourceOf(image.value) == src && again == first
  {
    first, kinds := EncodeSections(hs, src);
    image, again := None, None;
    if first.Some? {
      ReadsBack(hs, src, kinds, WrittenImage(hs, src, kinds));
      image := ReadWire(first.value, hs, src.schema);
      if image.Some? {
        ReadsBack(hs, src, kinds, image.value);
        var order;
        again, order := Reencode(hs, image.value);
        KindsUnique(src, kinds, order);
      }
    }
  }
}
