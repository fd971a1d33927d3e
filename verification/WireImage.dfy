/** The framing of a wire image: a header, a directory, and sections tiled behind them. */
module WireImage {
  import opened Ordering
  import opened FixedWidth
  import opened WireTable

  // ----- Formats

  const HEADER: nat := 96

  const SWRL: nat := 0x8001
  const VIEW_PROVENANCE: nat := 0x8002
  const ENCODED_STRUCTURAL_V1: nat := 0x8003
  const ENCODED_STRUCTURAL_V2: nat := 0x8004

  /** The sections every image has. */
  predicate Required(kind: nat) { 1 <= kind <= 14 }

  /** The sections that hold tables, under a model schema. */
  predicate Known(schema: nat, kind: nat)
  {
    || Required(kind) || kind == SWRL || kind == VIEW_PROVENANCE || kind == ENCODED_STRUCTURAL_V1
    || (schema == 2 && kind == ENCODED_STRUCTURAL_V2)
  }

  function SectionSchema(schema: nat, kind: nat): nat
  {
    if schema == 2 && kind == ENCODED_STRUCTURAL_V2 then 2 else 1
  }

  /** Some sections need a later minor version, or another model schema. */
  predicate Permitted(schema: nat, minor: nat, kind: nat)
  {
    && (kind == VIEW_PROVENANCE ==> minor >= 1)
    && (kind == ENCODED_STRUCTURAL_V1 ==> minor >= 1 && schema != 2)
    && (kind == ENCODED_STRUCTURAL_V2 && schema == 2 ==> minor >= 2)
  }

  // ----- Fields

  lemma AtTriple(data: Bytes, at: nat, a: Bytes, b: Bytes, c: Bytes)
    ensures At(data, at, a + b + c) <==> At(data, at, a) && At(data, at + |a|, b) && At(data, at + |a| + |b|, c)
  {
    AtSplit(data, at, a + b, c);
    AtSplit(data, at, a, b);
  }

  lemma AtQuad(data: Bytes, at: nat, a: Bytes, b: Bytes, c: Bytes, d: Bytes)
    ensures At(data, at, a + b + c + d) <==>
            At(data, at, a) && At(data, at + |a|, b) && At(data, at + |a| + |b|, c) && At(data, at + |a| + |b| + |c|, d)
  {
    AtSplit(data, at, a + b + c, d);
    AtTriple(data, at, a, b, c);
  }

  // ----- Directory entries

  datatype Entry = Entry(kind: nat, flags: nat, schema: nat, offset: nat, stored: nat, decoded: nat, rows: nat,
                         digest: Bytes)

  ghost predicate EntryFits(e: Entry)
  {
    && e.kind < U16 && e.flags < U16 && e.schema < U32 && e.offset < U64
    && e.stored < U64 && e.decoded < U64 && e.rows < U64 && |e.digest| == 32
  }

  function EntryFront(e: Entry): (bs: Bytes)
    ensures |bs| == 16
  {
    ToLE(e.kind, 2) + ToLE(e.flags, 2) + ToLE(e.schema, 4) + ToLE(e.offset, 8)
  }

  function EntryBack(e: Entry): (bs: Bytes)
    ensures |bs| == 24 + |e.digest|
  {
    ToLE(e.stored, 8) + ToLE(e.decoded, 8) + ToLE(e.rows, 8) + e.digest
  }

  function EntryBytes(e: Entry): (bs: Bytes)
    ensures |bs| == 40 + |e.digest|
  {
    EntryFront(e) + EntryBack(e)
  }

  function ReadEntry(data: Bytes, at: nat): Entry
  {
    Entry(LEAt(data, at, 2), LEAt(data, at + 2, 2), LEAt(data, at + 4, 4), LEAt(data, at + 8, 8),
          LEAt(data, at + 16, 8), LEAt(data, at + 24, 8), LEAt(data, at + 32, 8), Slice(data, at + 40, at + 72))
  }

  lemma EntryRead(data: Bytes, at: nat, e: Entry)
    requires At(data, at, EntryBytes(e)) && EntryFits(e)
    ensures ReadEntry(data, at) == e
  {
    Widths();
    AtSplit(data, at, EntryFront(e), EntryBack(e));
    AtQuad(data, at, ToLE(e.kind, 2), ToLE(e.flags, 2), ToLE(e.schema, 4), ToLE(e.offset, 8));
    AtQuad(data, at + 16, ToLE(e.stored, 8), ToLE(e.decoded, 8), ToLE(e.rows, 8), e.digest);
    LEAtDenotes(data, at, e.kind, 2);
    LEAtDenotes(data, at + 2, e.flags, 2);
    LEAtDenotes(data, at + 4, e.schema, 4);
    LEAtDenotes(data, at + 8, e.offset, 8);
    LEAtDenotes(data, at + 16, e.stored, 8);
    LEAtDenotes(data, at + 24, e.decoded, 8);
    LEAtDenotes(data, at + 32, e.rows, 8);
    AtIsSlice(data, at + 40, e.digest);
  }

  lemma EntryWritten(data: Bytes, at: nat)
    requires at + 72 <= |data|
    ensures At(data, at, EntryBytes(ReadEntry(data, at))) && EntryFits(ReadEntry(data, at))
  {
    var e := ReadEntry(data, at);
    Widths();
    AtLE(data, at, 2);
    AtLE(data, at + 2, 2);
    AtLE(data, at + 4, 4);
    AtLE(data, at + 8, 8);
    AtLE(data, at + 16, 8);
    AtLE(data, at + 24, 8);
    AtLE(data, at + 32, 8);
    SliceAt(data, at + 40, at + 72);
    AtQuad(data, at, ToLE(e.kind, 2), ToLE(e.flags, 2), ToLE(e.schema, 4), ToLE(e.offset, 8));
    AtQuad(data, at + 16, ToLE(e.stored, 8), ToLE(e.decoded, 8), ToLE(e.rows, 8), e.digest);
    AtSplit(data, at, EntryFront(e), EntryBack(e));
  }

  function Directory(entries: seq<Entry>): Bytes
  {
    if entries == [] then [] else Directory(entries[..|entries| - 1]) + EntryBytes(entries[|entries| - 1])
  }

  ghost predicate AllFit(entries: seq<Entry>)
  {
    entries == [] || (AllFit(entries[..|entries| - 1]) && EntryFits(entries[|entries| - 1]))
  }

  ghost predicate DigestsFit(entries: seq<Entry>)
  {
    entries == [] || (DigestsFit(entries[..|entries| - 1]) && |entries[|entries| - 1].digest| == 32)
  }

  lemma {:induction false} AllFitDigests(entries: seq<Entry>)
    requires AllFit(entries)
    ensures DigestsFit(entries)
  {
    if entries != [] {
      AllFitDigests(entries[..|entries| - 1]);
    }
  }

  lemma {:induction false} DirectoryLength(entries: seq<Entry>)
    requires DigestsFit(entries)
    ensures |Directory(entries)| == 72 * |entries|
  {
    if entries != [] {
      DirectoryLength(entries[..|entries| - 1]);
    }
  }

  function ReadEntries(data: Bytes, n: nat): (entries: seq<Entry>)
    ensures |entries| == n
  {
    if n == 0 then [] else ReadEntries(data, n - 1) + [ReadEntry(data, HEADER + 72 * (n - 1))]
  }

  /** The bytes of a directory determine its entries. */
  lemma {:induction false} DirectoryRead(data: Bytes, entries: seq<Entry>)
    requires At(data, HEADER, Directory(entries)) && AllFit(entries)
    ensures ReadEntries(data, |entries|) == entries
  {
    if entries != [] {
      var init, last := entries[..|entries| - 1], entries[|entries| - 1];
      AllFitDigests(init);
      DirectoryLength(init);
      AtSplit(data, HEADER, Directory(init), EntryBytes(last));
      DirectoryRead(data, init);
      EntryRead(data, HEADER + 72 * |init|, last);
      assert entries == init + [last];
    }
  }

  lemma DirectoryNext(data: Bytes, entries: seq<Entry>, e: Entry)
    requires At(data, HEADER, Directory(entries)) && AllFit(entries)
    requires At(data, HEADER + 72 * |entries|, EntryBytes(e)) && EntryFits(e)
    ensures At(data, HEADER, Directory(entries + [e])) && AllFit(entries + [e])
  {
    AppendFront(entries, e);
    AllFitDigests(entries);
    DirectoryLength(entries);
    AtSplit(data, HEADER, Directory(entries), EntryBytes(e));
  }

  lemma {:induction false} DirectoryWritten(data: Bytes, n: nat)
    requires HEADER + 72 * n <= |data|
    ensures At(data, HEADER, Directory(ReadEntries(data, n))) && AllFit(ReadEntries(data, n))
  {
    if n > 0 {
      DirectoryWritten(data, n - 1);
      EntryWritten(data, HEADER + 72 * (n - 1));
      DirectoryNext(data, ReadEntries(data, n - 1), ReadEntry(data, HEADER + 72 * (n - 1)));
    }
  }

  // ----- The header

  /** The text PYOCORE and a zero byte, read as a word. */
  const MAGIC: nat := 0x0045_524F_434F_5950

  const MAJOR: nat := 1
  const PROFILE: nat := 1
  const RESERVED: nat := 0

  datatype Head = Head(minor: nat, features: nat, count: nat, schema: nat, total: nat)

  ghost predicate HeadFits(h: Head)
  {
    && h.minor < U16 && h.features < U32 && h.count < U32 && h.schema < U32
    && h.total < U64 && 72 * h.count < U64
  }

  function Versions(h: Head): (bs: Bytes)
    ensures |bs| == 12
  {
    ToLE(MAJOR, 2) + ToLE(h.minor, 2) + ToLE(HEADER, 4) + ToLE(h.features, 4)
  }

  function Schemas(h: Head): (bs: Bytes)
    ensures |bs| == 12
  {
    ToLE(h.count, 4) + ToLE(h.schema, 4) + ToLE(PROFILE, 4)
  }

  function Bounds(h: Head): (bs: Bytes)
    ensures |bs| == 24
  {
    ToLE(h.total, 8) + ToLE(HEADER, 8) + ToLE(72 * h.count, 8)
  }

  /** The part of the header before its seal. */
  function Front(h: Head): (bs: Bytes)
    ensures |bs| == 56
  {
    ToLE(MAGIC, 8) + Versions(h) + Schemas(h) + Bounds(h)
  }

  /** The file digest, the header checksum and a reserved word. */
  function Seal(digest: Bytes, crc: nat): (bs: Bytes)
    ensures |bs| == |digest| + 8
  {
    digest + ToLE(crc, 4) + ToLE(RESERVED, 4)
  }

  ghost predicate IsHeader(data: Bytes, schema: nat, h: Head, digest: Bytes, crc: nat)
  {
    && HeadFits(h) && |digest| == 32 && crc < U32
    && At(data, 0, Front(h)) && At(data, 56, Seal(digest, crc))
    && h.schema == schema && h.total == |data| && HEADER + 72 * h.count <= |data|
  }

  function ReadHead(data: Bytes): Head
  {
    Head(LEAt(data, 10, 2), LEAt(data, 16, 4), LEAt(data, 20, 4), LEAt(data, 24, 4), LEAt(data, 32, 8))
  }

  /** The checks of the header, field by field. */
  predicate Supported(data: Bytes, schema: nat)
  {
    && |data| >= HEADER
    && LEAt(data, 0, 8) == MAGIC && LEAt(data, 8, 2) == MAJOR && LEAt(data, 12, 4) == HEADER
    && LEAt(data, 24, 4) == schema && LEAt(data, 28, 4) == PROFILE && LEAt(data, 92, 4) == RESERVED
    && LEAt(data, 32, 8) == |data| && LEAt(data, 40, 8) == HEADER && LEAt(data, 48, 8) == 72 * LEAt(data, 20, 4)
    && LEAt(data, 40, 8) + LEAt(data, 48, 8) <= |data|
  }

  lemma FrontParts(data: Bytes, h: Head)
    ensures At(data, 0, Front(h)) <==>
            && At(data, 0, ToLE(MAGIC, 8)) && At(data, 8, Versions(h))
            && At(data, 20, Schemas(h)) && At(data, 32, Bounds(h))
  {
    FourParts(data, Front(h), ToLE(MAGIC, 8), Versions(h), Schemas(h), Bounds(h));
  }

  lemma FourParts(data: Bytes, whole: Bytes, a: Bytes, b: Bytes, c: Bytes, d: Bytes)
    requires whole == a + b + c + d && |a| == 8 && |b| == 12 && |c| == 12
    ensures At(data, 0, whole) <==> At(data, 0, a) && At(data, 8, b) && At(data, 20, c) && At(data, 32, d)
  {
    AtQuad(data, 0, a, b, c, d);
  }

  lemma FrontRead(data: Bytes, h: Head)
    requires At(data, 0, Front(h)) && HeadFits(h)
    ensures ReadHead(data) == h
    ensures LEAt(data, 0, 8) == MAGIC && LEAt(data, 8, 2) == MAJOR && LEAt(data, 12, 4) == HEADER
    ensures LEAt(data, 28, 4) == PROFILE && LEAt(data, 40, 8) == HEADER && LEAt(data, 48, 8) == 72 * h.count
  {
    FrontParts(data, h);
    Widths();
    LEAtDenotes(data, 0, MAGIC, 8);
    VersionsRead(data, h);
    SchemasRead(data, h);
    BoundsRead(data, h);
  }

  lemma VersionsRead(data: Bytes, h: Head)
    requires At(data, 8, Versions(h)) && HeadFits(h)
    ensures LEAt(data, 8, 2) == MAJOR && LEAt(data, 10, 2) == h.minor && LEAt(data, 12, 4) == HEADER
    ensures LEAt(data, 16, 4) == h.features
  {
    Widths();
    AtQuad(data, 8, ToLE(MAJOR, 2), ToLE(h.minor, 2), ToLE(HEADER, 4), ToLE(h.features, 4));
    LEAtDenotes(data, 8, MAJOR, 2);
    LEAtDenotes(data, 10, h.minor, 2);
    LEAtDenotes(data, 12, HEADER, 4);
    LEAtDenotes(data, 16, h.features, 4);
  }

  lemma SchemasRead(data: Bytes, h: Head)
    requires At(data, 20, Schemas(h)) && HeadFits(h)
    ensures LEAt(data, 20, 4) == h.count && LEAt(data, 24, 4) == h.schema && LEAt(data, 28, 4) == PROFILE
  {
    Widths();
    AtTriple(data, 20, ToLE(h.count, 4), ToLE(h.schema, 4), ToLE(PROFILE, 4));
    LEAtDenotes(data, 20, h.count, 4);
    LEAtDenotes(data, 24, h.schema, 4);
    LEAtDenotes(data, 28, PROFILE, 4);
  }

  lemma BoundsRead(data: Bytes, h: Head)
    requires At(data, 32, Bounds(h)) && HeadFits(h)
    ensures LEAt(data, 32, 8) == h.total && LEAt(data, 40, 8) == HEADER && LEAt(data, 48, 8) == 72 * h.count
  {
    Widths();
    AtTriple(data, 32, ToLE(h.total, 8), ToLE(HEADER, 8), ToLE(72 * h.count, 8));
    LEAtDenotes(data, 32, h.total, 8);
    LEAtDenotes(data, 40, HEADER, 8);
    LEAtDenotes(data, 48, 72 * h.count, 8);
  }

  lemma SealRead(data: Bytes, digest: Bytes, crc: nat)
    requires At(data, 56, Seal(digest, crc)) && |digest| == 32 && crc < U32
    ensures Slice(data, 56, 88) == digest && LEAt(data, 88, 4) == crc && LEAt(data, 92, 4) == RESERVED
  {
    Widths();
    AtTriple(data, 56, digest, ToLE(crc, 4), ToLE(RESERVED, 4));
    AtIsSlice(data, 56, digest);
    LEAtDenotes(data, 88, crc, 4);
    LEAtDenotes(data, 92, RESERVED, 4);
  }

  lemma HeaderRead(data: Bytes, schema: nat, h: Head, digest: Bytes, crc: nat)
    requires IsHeader(data, schema, h, digest, crc)
    ensures Supported(data, schema) && h == ReadHead(data) && digest == Slice(data, 56, 88) && crc == LEAt(data, 88, 4)
  {
    FrontRead(data, h);
    SealRead(data, digest, crc);
  }

  lemma VersionsWritten(data: Bytes, schema: nat)
    requires Supported(data, schema)
    ensures var h := ReadHead(data); At(data, 8, Versions(h)) && h.minor < U16 && h.features < U32
  {
    var h := ReadHead(data);
    AtLE(data, 8, 2);
    AtLE(data, 10, 2);
    AtLE(data, 12, 4);
    AtLE(data, 16, 4);
    AtQuad(data, 8, ToLE(MAJOR, 2), ToLE(h.minor, 2), ToLE(HEADER, 4), ToLE(h.features, 4));
  }

  lemma SchemasWritten(data: Bytes, schema: nat)
    requires Supported(data, schema)
    ensures var h := ReadHead(data); At(data, 20, Schemas(h)) && h.count < U32 && h.schema < U32
  {
    var h := ReadHead(data);
    AtLE(data, 20, 4);
    AtLE(data, 24, 4);
    AtLE(data, 28, 4);
    AtTriple(data, 20, ToLE(h.count, 4), ToLE(h.schema, 4), ToLE(PROFILE, 4));
  }

  lemma BoundsWritten(data: Bytes, schema: nat)
    requires Supported(data, schema)
    ensures var h := ReadHead(data); At(data, 32, Bounds(h)) && h.total < U64 && 72 * h.count < U64
  {
    var h := ReadHead(data);
    AtLE(data, 32, 8);
    AtLE(data, 40, 8);
    AtLE(data, 48, 8);
    AtTriple(data, 32, ToLE(h.total, 8), ToLE(HEADER, 8), ToLE(72 * h.count, 8));
  }

  lemma SealWritten(data: Bytes)
    requires |data| >= HEADER && LEAt(data, 92, 4) == RESERVED
    ensures var digest, crc := Slice(data, 56, 88), LEAt(data, 88, 4);
      |digest| == 32 && crc < U32 && At(data, 56, Seal(digest, crc))
  {
    SliceAt(data, 56, 88);
    AtLE(data, 88, 4);
    AtLE(data, 92, 4);
    AtTriple(data, 56, Slice(data, 56, 88), ToLE(LEAt(data, 88, 4), 4), ToLE(RESERVED, 4));
  }

  lemma HeaderWritten(data: Bytes, schema: nat)
    requires Supported(data, schema)
    ensures IsHeader(data, schema, ReadHead(data), Slice(data, 56, 88), LEAt(data, 88, 4))
  {
    FrontWritten(data, schema);
    SealWritten(data);
  }

  lemma FrontWritten(data: Bytes, schema: nat)
    requires Supported(data, schema)
    ensures HeadFits(ReadHead(data)) && At(data, 0, Front(ReadHead(data)))
  {
    AtLE(data, 0, 8);
    VersionsWritten(data, schema);
    SchemasWritten(data, schema);
    BoundsWritten(data, schema);
    FrontParts(data, ReadHead(data));
  }
}
