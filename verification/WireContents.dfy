/** What an accepted wire image holds, in the numbers of the format: where each field lies, and
    which kinds of sections are accepted under which minor version and model schema. */
module WireContents {
  import opened Ordering
  import opened FixedWidth
  import opened WireTable
  import opened WireImage
  import opened WireReader
  import opened WireRoundTrip

  // ----- Entries

  /** The kinds that hold tables: 1 to 14, 0x8001 to 0x8003, and under model schema 2 also 0x8004. */
  predicate HoldsTable(schema: nat, kind: nat)
  {
    || (1 <= kind && kind <= 14)
    || kind == 0x8001 || kind == 0x8002 || kind == 0x8003
    || (schema == 2 && kind == 0x8004)
  }

  /** Kind 0x8002 needs minor version 1, as does 0x8003, which model schema 2 never has; there 0x8004
      needs minor version 2. Everything else is free. */
  predicate VersionAllows(schema: nat, minor: nat, kind: nat)
  {
    && (kind == 0x8002 ==> minor > 0)
    && (kind == 0x8003 ==> minor > 0 && schema != 2)
    && (kind == 0x8004 && schema == 2 ==> minor > 1)
  }

  lemma {:induction false} SliceIs(data: Bytes, from: nat, to: nat)
    requires from <= to <= |data|
    ensures Slice(data, from, to) == data[from..to]
    decreases if from < to then to - from else 0
  {
    if from < to {
      SliceIs(data, from + 1, to);
      assert data[from..to] == [data[from]] + data[from + 1..to];
    } else {
      assert data[from..to] == [];
    }
  }

  /** An entry is accepted exactly when its flags are 1 or 2; its kind is allowed; it starts at a
      multiple of eight behind the directory and ends within the data; both its lengths agree; its
      digest is that of its bytes; and if it holds a table, its schema is 1, or 2 for the last kind,
      and its bytes are a table of that many rows. */
  lemma EntryAccepted(data: Bytes, hs: Hashes, schema: nat, minor: nat, count: nat, e: Entry)
    ensures EntryOk(data, hs, schema, minor, count, e) <==>
      && (e.flags == 1 || e.flags == 2) && VersionAllows(schema, minor, e.kind)
      && e.offset % 8 == 0 && 96 + 72 * count <= e.offset && e.offset + e.stored <= |data| && e.decoded == e.stored
      && hs.sha(data[e.offset..e.offset + e.stored]) == e.digest
      && (HoldsTable(schema, e.kind) ==>
            && e.schema == (if schema == 2 && e.kind == 0x8004 then 2 else 1)
            && Regular(data[e.offset..e.offset + e.stored], e.rows))
  {
    if e.offset + e.stored <= |data| {
      SliceIs(data, e.offset, e.offset + e.stored);
    }
  }

  // ----- Images

  lemma {:induction false} ReadEntriesAt(data: Bytes, n: nat, i: nat)
    requires i < n
    ensures ReadEntries(data, n)[i] == ReadEntry(data, 96 + 72 * i)
    decreases n
  {
    if i < n - 1 {
      ReadEntriesAt(data, n - 1, i);
    }
  }

  lemma HeadRead(data: Bytes, hs: Hashes, schema: nat, image: Image)
    requires Accepted(data, hs, schema, image)
    ensures Supported(data, schema)
    ensures ReadHead(data) == Head(image.minor, image.features, |image.entries|, schema, |data|)
    ensures image.digest == Slice(data, 56, 88) && LEAt(data, 88, 4) == hs.crc(HeaderPart(Blanked(data)))
  {
    var h := Head(image.minor, image.features, |image.entries|, schema, |data|);
    HeaderRead(data, schema, h, image.digest, hs.crc(HeaderPart(Blanked(data))));
  }

  /** The fields of an accepted image, where they lie in its bytes. */
  lemma FieldsAt(data: Bytes, hs: Hashes, schema: nat, image: Image)
    requires Accepted(data, hs, schema, image)
    ensures |data| >= 96 && image.schema == schema
    ensures data[..8] == [0x50, 0x59, 0x4F, 0x43, 0x4F, 0x52, 0x45, 0]
    ensures LEAt(data, 8, 2) == 1 && LEAt(data, 10, 2) == image.minor
    ensures LEAt(data, 12, 4) == 96 && LEAt(data, 16, 4) == image.features
    ensures LEAt(data, 20, 4) == |image.entries| && LEAt(data, 24, 4) == schema && LEAt(data, 28, 4) == 1
    ensures LEAt(data, 32, 8) == |data| && LEAt(data, 40, 8) == 96 && LEAt(data, 48, 8) == 72 * |image.entries|
    ensures LEAt(data, 92, 4) == 0
  {
    HeadRead(data, hs, schema, image);
    Magic(data);
  }

  lemma BlankedIs(data: Bytes)
    requires |data| >= 96
    ensures Blanked(data) == data[..56] + Zeros(36) + data[92..]
    ensures HeaderPart(Blanked(data)) == data[..56] + Zeros(36) + data[92..96]
  {
    var front, back := data[..56] + Zeros(36), data[92..];
    assert (front + back)[..96] == front + back[..4] && back[..4] == data[92..96];
  }

  /** Its digest and its checksum are those of its bytes with both of them blanked. */
  lemma SealAt(data: Bytes, hs: Hashes, schema: nat, image: Image)
    requires Accepted(data, hs, schema, image)
    ensures |data| >= 96 && data[56..88] == image.digest == hs.sha(data[..56] + Zeros(36) + data[92..])
    ensures LEAt(data, 88, 4) == hs.crc(data[..56] + Zeros(36) + data[92..96])
  {
    HeadRead(data, hs, schema, image);
    SliceIs(data, 56, 88);
    BlankedIs(data);
  }

  lemma Magic(data: Bytes)
    requires |data| >= 96 && LEAt(data, 0, 8) == MAGIC
    ensures data[..8] == [0x50, 0x59, 0x4F, 0x43, 0x4F, 0x52, 0x45, 0]
  {
    AtLE(data, 0, 8);
    AtIsSlice(data, 0, ToLE(MAGIC, 8));
    SliceIs(data, 0, 8);
    MagicBytes();
  }

  lemma LowByte(n: nat, low: nat, rest: nat, width: nat, tail: Bytes)
    requires n == low + 256 * rest && low < 256 && width > 0 && ToLE(rest, width - 1) == tail
    ensures ToLE(n, width) == [low] + tail
  {
    assert n % 256 == low && n / 256 == rest;
  }

  lemma MagicBytes()
    ensures ToLE(MAGIC, 8) == [0x50, 0x59, 0x4F, 0x43, 0x4F, 0x52, 0x45, 0]
  {
    LowByte(0, 0, 0, 1, []);
    LowByte(0x45, 0x45, 0, 2, [0]);
    LowByte(0x4552, 0x52, 0x45, 3, [0x45, 0]);
    LowByte(0x45_524F, 0x4F, 0x4552, 4, [0x52, 0x45, 0]);
    LowByte(0x4552_4F43, 0x43, 0x45_524F, 5, [0x4F, 0x52, 0x45, 0]);
    LowByte(0x45_524F_434F, 0x4F, 0x4552_4F43, 6, [0x43, 0x4F, 0x52, 0x45, 0]);
    LowByte(0x4552_4F43_4F59, 0x59, 0x45_524F_434F, 7, [0x4F, 0x43, 0x4F, 0x52, 0x45, 0]);
    LowByte(MAGIC, 0x50, 0x4552_4F43_4F59, 8, [0x59, 0x4F, 0x43, 0x4F, 0x52, 0x45, 0]);
  }

  /** Each entry of the directory, where its fields lie. */
  lemma EntryAt(data: Bytes, hs: Hashes, schema: nat, image: Image, i: nat)
    requires Accepted(data, hs, schema, image) && i < |image.entries|
    ensures var e, at := image.entries[i], 96 + 72 * i;
      && e.kind == LEAt(data, at, 2) && e.flags == LEAt(data, at + 2, 2) && e.schema == LEAt(data, at + 4, 4)
      && e.offset == LEAt(data, at + 8, 8) && e.stored == LEAt(data, at + 16, 8)
      && e.decoded == LEAt(data, at + 24, 8) && e.rows == LEAt(data, at + 32, 8)
      && at + 72 <= |data| && e.digest == data[at + 40..at + 72]
  {
    var at := 96 + 72 * i;
    DirectoryRead(data, image.entries);
    ReadEntriesAt(data, |image.entries|, i);
    assert at + 72 <= 96 + 72 * |image.entries| <= |data|;
    SliceIs(data, at + 40, at + 72);
  }

  /** The kinds of the entries rise. */
  lemma KindsRising(data: Bytes, hs: Hashes, schema: nat, image: Image)
    requires Accepted(data, hs, schema, image)
    ensures forall i, j | 0 <= i < j < |image.entries| :: image.entries[i].kind < image.entries[j].kind
  {
    forall i, j | 0 <= i < j < |image.entries|
      ensures image.entries[i].kind < image.entries[j].kind
    {
      EntriesOkKinds(data, hs, schema, image.minor, |image.entries|, image.entries, i, j);
    }
  }

  lemma SectionBytes(data: Bytes, hs: Hashes, schema: nat, minor: nat, count: nat, e: Entry)
    requires EntryOk(data, hs, schema, minor, count, e)
    ensures e.offset + e.stored <= |data| && Section(data, e) == data[e.offset..e.offset + e.stored]
  {
    SliceIs(data, e.offset, e.offset + e.stored);
  }

  /** Each entry is accepted, and its bytes are what the image has under its kind. */
  lemma SectionHeld(data: Bytes, hs: Hashes, schema: nat, image: Image, e: Entry)
    requires Accepted(data, hs, schema, image) && e in image.entries
    ensures EntryOk(data, hs, schema, image.minor, |image.entries|, e) && e.offset + e.stored <= |data|
    ensures e.kind in image.sections && image.sections[e.kind] == data[e.offset..e.offset + e.stored]
  {
    SectionsAt(data, hs, schema, image.minor, |image.entries|, image.entries, e);
    SectionBytes(data, hs, schema, image.minor, |image.entries|, e);
  }

  /** An accepted image has sections of the kinds of its entries and no others; those of kinds 1 to
      14 are all there, and exactly they are flagged 1. */
  lemma KindsHeld(data: Bytes, hs: Hashes, schema: nat, image: Image, k: nat)
    requires Accepted(data, hs, schema, image)
    ensures k in image.sections <==> exists i :: 0 <= i < |image.entries| && image.entries[i].kind == k
    ensures 1 <= k <= 14 ==> k in image.sections
    ensures forall i | 0 <= i < |image.entries| ::
              image.entries[i].flags == 1 <==> 1 <= image.entries[i].kind <= 14
  {
    var entries := image.entries;
    forall i | 0 <= i < |entries|
      ensures entries[i].flags == 1 <==> 1 <= entries[i].kind <= 14
      ensures entries[i].kind in image.sections
    {
      assert entries[i] in entries;
      EntryFaithful(data, hs, SourceOf(image), entries, entries[i]);
      SectionsAt(data, hs, schema, image.minor, |entries|, entries, entries[i]);
    }
    SectionsHave(data, entries, k);
    if 1 <= k <= 14 {
      assert Required(k) && k in RequiredKinds();
      FlaggedMember(entries, k);
    }
  }

  lemma {:induction false} SectionsHave(data: Bytes, entries: seq<Entry>, k: nat)
    ensures k in SectionsOf(data, entries) <==> exists i :: 0 <= i < |entries| && entries[i].kind == k
    decreases |entries|
  {
    if entries != [] {
      var n := |entries| - 1;
      var front := entries[..n];
      SectionsHave(data, front, k);
      if i :| 0 <= i < |entries| && entries[i].kind == k {
        assert i < n ==> front[i].kind == k;
      }
      if i :| 0 <= i < |front| && front[i].kind == k {
        assert entries[i].kind == k;
      }
    }
  }
}
