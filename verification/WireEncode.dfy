/** The encoder: directory and body of the sections in the order of their kinds, behind a sealed
    header. */
module WireEncode {
  import opened Ordering
  import opened FixedWidth
  import opened WireImage
  import opened WireTiling
  import opened WireReader
  import opened WireWriter

  // ----- The order of the sections

  function KindOrder(kind: nat): seq<int> { [kind] }

  method ListKinds(sections: map<nat, Bytes>) returns (keys: seq<nat>)
    ensures Distinct(keys) && forall k: nat :: k in keys <==> k in sections
  {
    keys := [];
    var rest := sections.Keys;
    while rest != {}
      invariant Distinct(keys) && rest <= sections.Keys
      invariant forall k: nat :: k in keys <==> k in sections && k !in rest
    {
      var k :| k in rest;
      rest := rest - {k};
      keys := keys + [k];
    }
  }

  lemma {:induction false} AscendingKindsRise(kinds: seq<nat>)
    requires forall i, j | 0 <= i < j < |kinds| :: kinds[i] < kinds[j]
    ensures KindsRise(kinds)
  {
    if |kinds| >= 2 {
      AscendingKindsRise(kinds[..|kinds| - 1]);
    }
  }

  method SortKinds(src: Source) returns (kinds: seq<nat>)
    ensures IsKinds(src, kinds)
  {
    var keys := ListKinds(src.sections);
    kinds := Sort(keys, KindOrder);
    PermutationElements(kinds, keys);
    PermutationDistinct(keys, kinds);
    forall i, j | 0 <= i < j < |kinds|
      ensures kinds[i] < kinds[j]
    {
      assert !LexLess(KindOrder(kinds[j]), KindOrder(kinds[i]));
    }
    AscendingKindsRise(kinds);
  }

  // ----- The directory

  /** The row count of a table is its first word, which it must have. */
  predicate Counted(src: Source, kind: nat)
  {
    Known(src.schema, kind) ==> |SectionAt(src, kind)| >= 8
  }

  predicate AllCounted(src: Source, kinds: seq<nat>)
  {
    kinds == [] || (AllCounted(src, kinds[..|kinds| - 1]) && Counted(src, kinds[|kinds| - 1]))
  }

  lemma {:induction false} CountedAll(src: Source, kinds: seq<nat>, k: nat)
    requires k in kinds && AllCounted(src, kinds)
    ensures Counted(src, k)
  {
    if k != kinds[|kinds| - 1] {
      CountedAll(src, kinds[..|kinds| - 1], k);
    }
  }

  method CheckCounted(src: Source, kinds: seq<nat>) returns (ok: bool)
    ensures ok <==> AllCounted(src, kinds)
  {
    for i := 0 to |kinds|
      invariant AllCounted(src, kinds[..i])
    {
      assert kinds[..i + 1][..i] == kinds[..i];
      if Known(src.schema, kinds[i]) && |SectionAt(src, kinds[i])| < 8 {
        if AllCounted(src, kinds) {
          CountedAll(src, kinds, kinds[i]);
        }
        return false;
      }
    }
    assert kinds[..|kinds|] == kinds;
    ok := true;
  }

  lemma IsPlanAppend(hs: Hashes, src: Source, kinds: seq<nat>, start: nat, entries: seq<Entry>, kind: nat)
    requires IsPlan(hs, src, kinds, start, entries)
    ensures IsPlan(hs, src, kinds + [kind], start, entries + [PlanEntry(hs, src, kind, NextOffset(start, entries))])
  {
    var e := PlanEntry(hs, src, kind, NextOffset(start, entries));
    assert (kinds + [kind])[..|kinds|] == kinds && (entries + [e])[..|entries|] == entries;
  }

  /** The directory, each section at the next aligned place. */
  method PlanDirectory(hs: Hashes, src: Source, kinds: seq<nat>) returns (entries: seq<Entry>)
    ensures entries == Plan(hs, src, kinds, Start(|kinds|))
  {
    var start := Start(|kinds|);
    AlignShift(|kinds|, 0);
    var cursor := Align(start);
    entries := [];
    for i := 0 to |kinds|
      invariant IsPlan(hs, src, kinds[..i], start, entries)
      invariant i < |kinds| ==> cursor == NextOffset(start, entries)
    {
      IsPlanAppend(hs, src, kinds[..i], start, entries, kinds[i]);
      assert kinds[..i + 1] == kinds[..i] + [kinds[i]];
      var e := PlanEntry(hs, src, kinds[i], cursor);
      entries := entries + [e];
      cursor := if i + 1 < |kinds| then Align(cursor + e.stored) else cursor + e.stored;
    }
    assert kinds[..|kinds|] == kinds;
    PlanUnique(hs, src, kinds, |kinds|, entries);
  }

  lemma BodyAppend(sections: seq<Bytes>, section: Bytes)
    ensures var body := Body(sections);
      |body| <= Align(|body|) && Body(sections + [section]) == body + Zeros(Align(|body|) - |body|) + section
  {
    assert (sections + [section])[..|sections|] == sections;
    AlignUp(|Body(sections)|);
  }

  /** The sections behind each other, with the zeros between them. */
  method LayOut(sections: seq<Bytes>) returns (body: Bytes)
    ensures body == Body(sections)
  {
    body := [];
    for i := 0 to |sections|
      invariant body == Body(sections[..i])
    {
      BodyAppend(sections[..i], sections[i]);
      assert sections[..i + 1] == sections[..i] + [sections[i]];
      body := body + Zeros(Align(|body|) - |body|) + sections[i];
    }
    assert sections[..|sections|] == sections;
  }

  // ----- The image

  method HasAllRequired(src: Source) returns (ok: bool)
    ensures ok <==> forall k: nat | Required(k) :: k in src.sections
  {
    for k: nat := 1 to 15
      invariant forall j: nat | 1 <= j < k :: j in src.sections
    {
      if k !in src.sections {
        assert Required(k);
        return false;
      }
    }
    ok := true;
  }

  /** What can be packed: all required sections, tables with a row count, and fields in range. */
  ghost predicate Packable(src: Source, kinds: seq<nat>)
  {
    Encodable(src, kinds) && AllCounted(src, kinds)
  }

  /** The checksum is of the blank header, and the digest of the image with both left blank. */
  method SealImage(hs: Hashes, h: Head, entries: seq<Entry>, body: Bytes) returns (data: Bytes)
    requires HashesFit(hs)
    ensures var unsealed := Framed(h, Zeros(32), BLANK, entries, body);
      data == Framed(h, hs.sha(unsealed), hs.crc(HeaderPart(unsealed)), entries, body)
  {
    var crc := hs.crc(HeaderPart(Framed(h, Zeros(32), BLANK, entries, body)));
    var summed := Framed(h, Zeros(32), crc, entries, body);
    FramedBlanked(h, Zeros(32), crc, entries, body);
    data := Framed(h, hs.sha(Blanked(summed)), crc, entries, body);
  }

  /** Encoding gives the image of the sections, in the order of their kinds, or fails where a
      section is missing or a field is out of range. */
  method EncodeSections(hs: Hashes, src: Source) returns (r: Option<Bytes>, kinds: seq<nat>)
    requires HashesFit(hs)
    ensures IsKinds(src, kinds)
    ensures r.Some? <==> Packable(src, kinds)
    ensures r.Some? ==> r.value == ImageBytes(hs, src, kinds)
  {
    kinds := SortKinds(src);
    var complete := HasAllRequired(src);
    if !complete {
      MissingRequired(src, kinds);
      return None, kinds;
    }
    var ok := CheckCounted(src, kinds);
    if !ok || !FieldsFit(src, kinds) {
      return None, kinds;
    }
    var entries := PlanDirectory(hs, src, kinds);
    var body := LayOut(SectionList(src, kinds));
    var data := SealImage(hs, HeadOf(src, kinds), entries, body);
    return Some(data), kinds;
  }

  lemma MissingRequired(src: Source, kinds: seq<nat>)
    requires IsKinds(src, kinds) && exists k: nat :: Required(k) && k !in src.sections
    ensures !Encodable(src, kinds)
  {
    var k: nat :| Required(k) && k !in src.sections;
    assert k !in kinds;
  }
}
