/** The wire reader: which images it accepts, and what it reads from them. */
module WireReader {
  import opened Ordering
  import opened FixedWidth
  import opened WireTable
  import opened WireImage
  import opened WireTiling

  /** The digest and the checksum, as functions of bytes. */
  datatype Hashes = Hashes(sha: Bytes -> Bytes, crc: Bytes -> nat)

  datatype Image = Image(minor: nat, features: nat, digest: Bytes, entries: seq<Entry>, sections: map<nat, Bytes>,
                         schema: nat)

  // ----- What is accepted

  /** The data with digest and checksum blanked. */
  function Blanked(data: Bytes): Bytes
  {
    if |data| < HEADER then data else data[..56] + Zeros(36) + data[92..]
  }

  function HeaderPart(data: Bytes): Bytes
  {
    if |data| < HEADER then data else data[..HEADER]
  }

  function Section(data: Bytes, e: Entry): Bytes { Slice(data, e.offset, End(e)) }

  /** A directory entry the reader accepts. */
  ghost predicate EntryOk(data: Bytes, hs: Hashes, schema: nat, minor: nat, count: nat, e: Entry)
  {
    && (e.flags == 1 || e.flags == 2)
    && (Known(schema, e.kind) ==> e.schema == SectionSchema(schema, e.kind))
    && Permitted(schema, minor, e.kind)
    && e.offset % 8 == 0 && HEADER + 72 * count <= e.offset && End(e) <= |data| && e.decoded == e.stored
    && hs.sha(Section(data, e)) == e.digest
    && (Known(schema, e.kind) ==> Regular(Section(data, e), e.rows))
  }

  /** Accepted entries, in strictly ascending order of their kinds. */
  ghost predicate EntriesOk(data: Bytes, hs: Hashes, schema: nat, minor: nat, count: nat, entries: seq<Entry>)
  {
    if entries == [] then true
    else
      var init, last := entries[..|entries| - 1], entries[|entries| - 1];
      && EntriesOk(data, hs, schema, minor, count, init)
      && (init != [] ==> init[|init| - 1].kind < last.kind)
      && EntryOk(data, hs, schema, minor, count, last)
  }

  function Flagged(entries: seq<Entry>): set<nat>
  {
    if entries == [] then {}
    else
      var last := entries[|entries| - 1];
      Flagged(entries[..|entries| - 1]) + if last.flags == 1 then {last.kind} else {}
  }

  function RequiredKinds(): set<nat> { set k: nat | k <= 14 && Required(k) }

  /** Exactly the required sections are flagged as required. */
  predicate HasRequired(entries: seq<Entry>)
  {
    Flagged(entries) == RequiredKinds()
  }

  function SectionsOf(data: Bytes, entries: seq<Entry>): map<nat, Bytes>
  {
    if entries == [] then map[]
    else
      var last := entries[|entries| - 1];
      SectionsOf(data, entries[..|entries| - 1])[last.kind := Section(data, last)]
  }

  ghost predicate DirectoryOk(data: Bytes, hs: Hashes, schema: nat, minor: nat, entries: seq<Entry>)
  {
    && EntriesOk(data, hs, schema, minor, |entries|, entries)
    && HasRequired(entries)
    && Tiled(data, HEADER + 72 * |entries|, entries)
  }

  /** The data is a well-formed image, and this is what it holds. */
  ghost predicate Accepted(data: Bytes, hs: Hashes, schema: nat, image: Image)
  {
    && image.schema == schema
    && IsHeader(data, schema, Head(image.minor, image.features, |image.entries|, schema, |data|), image.digest,
                hs.crc(HeaderPart(Blanked(data))))
    && At(data, HEADER, Directory(image.entries)) && AllFit(image.entries)
    && DirectoryOk(data, hs, schema, image.minor, image.entries)
    && image.digest == hs.sha(Blanked(data))
    && image.sections == SectionsOf(data, image.entries)
  }

  /** An image is determined by its bytes. */
  function ReadImage(data: Bytes, schema: nat): Image
  {
    var h := ReadHead(data);
    var entries := ReadEntries(data, h.count);
    Image(h.minor, h.features, Slice(data, 56, 88), entries, SectionsOf(data, entries), schema)
  }

  lemma AcceptedUnique(data: Bytes, hs: Hashes, schema: nat, image: Image)
    requires Accepted(data, hs, schema, image)
    ensures image == ReadImage(data, schema) && Supported(data, schema)
  {
    HeaderRead(data, schema, Head(image.minor, image.features, |image.entries|, schema, |data|), image.digest,
               hs.crc(HeaderPart(Blanked(data))));
    DirectoryRead(data, image.entries);
  }

  // ----- The directory

  method CheckEntry(data: Bytes, hs: Hashes, schema: nat, minor: nat, count: nat, e: Entry) returns (ok: bool)
    ensures ok <==> EntryOk(data, hs, schema, minor, count, e)
  {
    if e.flags != 1 && e.flags != 2 {
      return false;
    }
    if Known(schema, e.kind) && e.schema != SectionSchema(schema, e.kind) {
      return false;
    }
    if !Permitted(schema, minor, e.kind) {
      return false;
    }
    if e.offset % 8 != 0 || e.offset < HEADER + 72 * count || End(e) > |data| || e.decoded != e.stored {
      return false;
    }
    var section := Section(data, e);
    if hs.sha(section) != e.digest {
      return false;
    }
    ok := true;
    if Known(schema, e.kind) {
      ok := ValidateTable(section, e.rows);
    }
  }

  lemma {:induction false} EntriesOkPrefix(data: Bytes, hs: Hashes, schema: nat, minor: nat, count: nat, n: nat, k: nat)
    requires k <= n && EntriesOk(data, hs, schema, minor, count, ReadEntries(data, n))
    ensures EntriesOk(data, hs, schema, minor, count, ReadEntries(data, k))
  {
    if k < n {
      assert ReadEntries(data, n)[..n - 1] == ReadEntries(data, n - 1);
      EntriesOkPrefix(data, hs, schema, minor, count, n - 1, k);
    }
  }

  /** The kind of the entry before, or -1. */
  function KindBefore(data: Bytes, index: nat): int
  {
    if index == 0 then -1 else ReadEntry(data, HEADER + 72 * (index - 1)).kind
  }

  /** One more entry of the directory. */
  lemma EntriesOkStep(data: Bytes, hs: Hashes, schema: nat, minor: nat, count: nat, k: nat, previous: int)
    requires previous == KindBefore(data, k)
    ensures var e := ReadEntry(data, HEADER + 72 * k);
      EntriesOk(data, hs, schema, minor, count, ReadEntries(data, k + 1)) <==>
      && EntriesOk(data, hs, schema, minor, count, ReadEntries(data, k))
      && previous < e.kind && EntryOk(data, hs, schema, minor, count, e)
    ensures SectionsOf(data, ReadEntries(data, k + 1)) ==
            var e := ReadEntry(data, HEADER + 72 * k);
            SectionsOf(data, ReadEntries(data, k))[e.kind := Section(data, e)]
  {
    var entries := ReadEntries(data, k + 1);
    assert entries[..k] == ReadEntries(data, k);
    if k > 0 {
      assert ReadEntries(data, k)[k - 1] == ReadEntry(data, HEADER + 72 * (k - 1));
    }
  }

  method ReadDirectory(data: Bytes, hs: Hashes, schema: nat, minor: nat, count: nat)
    returns (ok: bool, entries: seq<Entry>, sections: map<nat, Bytes>)
    ensures ok <==> EntriesOk(data, hs, schema, minor, count, ReadEntries(data, count))
    ensures ok ==> entries == ReadEntries(data, count) && sections == SectionsOf(data, entries)
  {
    entries, sections := [], map[];
    var previousKind: int := -1;
    for index := 0 to count
      invariant entries == ReadEntries(data, index) && sections == SectionsOf(data, entries)
      invariant EntriesOk(data, hs, schema, minor, count, entries)
      invariant previousKind == KindBefore(data, index)
    {
      var e := ReadEntry(data, HEADER + 72 * index);
      EntriesOkStep(data, hs, schema, minor, count, index, previousKind);
      ok := CheckEntry(data, hs, schema, minor, count, e);
      if e.kind <= previousKind || !ok {
        RefusedEntry(data, hs, schema, minor, count, index);
        return false, entries, sections;
      }
      previousKind := e.kind;
      entries := entries + [e];
      sections := sections[e.kind := Section(data, e)];
    }
    ok := true;
  }

  lemma RefusedEntry(data: Bytes, hs: Hashes, schema: nat, minor: nat, count: nat, index: nat)
    requires index < count && !EntriesOk(data, hs, schema, minor, count, ReadEntries(data, index + 1))
    ensures !EntriesOk(data, hs, schema, minor, count, ReadEntries(data, count))
  {
    if EntriesOk(data, hs, schema, minor, count, ReadEntries(data, count)) {
      EntriesOkPrefix(data, hs, schema, minor, count, count, index + 1);
    }
  }

  lemma {:induction false} EntriesOkKinds(data: Bytes, hs: Hashes, schema: nat, minor: nat, count: nat,
                                          entries: seq<Entry>, i: nat, j: nat)
    requires EntriesOk(data, hs, schema, minor, count, entries) && i < j < |entries|
    ensures entries[i].kind < entries[j].kind
    decreases |entries|
  {
    var n := |entries| - 1;
    if j < n {
      EntriesOkKinds(data, hs, schema, minor, count, entries[..n], i, j);
    } else if i < n - 1 {
      EntriesOkKinds(data, hs, schema, minor, count, entries[..n], i, n - 1);
    }
  }

  lemma EntriesOkDiffer(data: Bytes, hs: Hashes, schema: nat, minor: nat, count: nat, entries: seq<Entry>)
    requires EntriesOk(data, hs, schema, minor, count, entries)
    ensures KindsDiffer(entries)
  {
    forall i, j | 0 <= i < j < |entries|
      ensures entries[i].kind != entries[j].kind
    {
      EntriesOkKinds(data, hs, schema, minor, count, entries, i, j);
    }
  }

  // ----- The reader

  method CheckDirectory(data: Bytes, hs: Hashes, schema: nat, minor: nat, count: nat)
    returns (ok: bool, entries: seq<Entry>, sections: map<nat, Bytes>)
    ensures ok <==> DirectoryOk(data, hs, schema, minor, ReadEntries(data, count))
    ensures ok ==> entries == ReadEntries(data, count) && sections == SectionsOf(data, entries)
  {
    ok, entries, sections := ReadDirectory(data, hs, schema, minor, count);
    if !ok {
      return;
    }
    if !HasRequired(entries) {
      return false, entries, sections;
    }
    EntriesOkDiffer(data, hs, schema, minor, count, entries);
    ok := CheckTiling(data, HEADER + 72 * count, entries);
  }

  /** What remains to be checked of data with a supported header. */
  lemma ReadingAccepted(data: Bytes, hs: Hashes, schema: nat)
    requires Supported(data, schema)
    ensures var h := ReadHead(data);
      Accepted(data, hs, schema, ReadImage(data, schema)) <==>
      && hs.crc(HeaderPart(Blanked(data))) == LEAt(data, 88, 4)
      && DirectoryOk(data, hs, schema, h.minor, ReadEntries(data, h.count))
      && hs.sha(Blanked(data)) == Slice(data, 56, 88)
  {
    HeaderWritten(data, schema);
    DirectoryWritten(data, ReadHead(data).count);
    var image, crc := ReadImage(data, schema), hs.crc(HeaderPart(Blanked(data)));
    var h := Head(image.minor, image.features, |image.entries|, schema, |data|);
    assert h == ReadHead(data);
    if IsHeader(data, schema, h, image.digest, crc) {
      HeaderRead(data, schema, h, image.digest, crc);
    }
  }

  /** The reader accepts exactly the well-formed images, and returns what they hold. */
  method ReadWire(data: Bytes, hs: Hashes, schema: nat) returns (r: Option<Image>)
    ensures r.Some? ==> Accepted(data, hs, schema, r.value)
    ensures r.None? ==> forall image :: !Accepted(data, hs, schema, image)
  {
    if !Supported(data, schema) {
      NotAccepted(data, hs, schema);
      return None;
    }
    ReadingAccepted(data, hs, schema);
    var h := ReadHead(data);
    if hs.crc(HeaderPart(Blanked(data))) != LEAt(data, 88, 4) {
      NotAccepted(data, hs, schema);
      return None;
    }
    var ok, entries, sections := CheckDirectory(data, hs, schema, h.minor, h.count);
    if !ok || hs.sha(Blanked(data)) != Slice(data, 56, 88) {
      NotAccepted(data, hs, schema);
      return None;
    }
    return Some(Image(h.minor, h.features, Slice(data, 56, 88), entries, sections, schema));
  }

  lemma NotAccepted(data: Bytes, hs: Hashes, schema: nat)
    requires !Supported(data, schema) || !Accepted(data, hs, schema, ReadImage(data, schema))
    ensures forall image :: !Accepted(data, hs, schema, image)
  {
    forall image
      ensures !Accepted(data, hs, schema, image)
    {
      if Accepted(data, hs, schema, image) {
        AcceptedUnique(data, hs, schema, image);
      }
    }
  }
}
