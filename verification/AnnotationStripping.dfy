/** The independently written reader that removes the trailing annotation set of a canonical
    row, proved to undo the encoder. */
module AnnotationStripping {
  import opened Ordering
  import opened Varint
  import opened Canonical

  datatype StripError = Protocol | Limit

  /** The offset a walk over the row arrived at. */
  datatype Skipped = Stop(end: nat) | Failed(error: StripError)

  // ----- What the reader accepts

  function ReadFailure(e: ReadError): StripError
  {
    match e
    case Truncated => Protocol
    case ExceedsU64 => Limit
  }

  /** The end of the length-framed bytes at `offset`. */
  function SkipFrame(data: Bytes, offset: nat): (r: Skipped)
    ensures r.Stop? ==> offset < r.end <= |data|
  {
    var length := ReadVarint(data, offset);
    if length.Unreadable? then Failed(ReadFailure(length.error))
    else if length.end + length.number <= |data| then Stop(length.end + length.number)
    else Failed(Protocol)
  }

  function SkipFrames(data: Bytes, offset: nat, count: nat): (r: Skipped)
    requires offset <= |data|
    ensures r.Stop? ==> offset <= r.end <= |data|
    decreases count
  {
    if count == 0 then Stop(offset)
    else
      var first := SkipFrame(data, offset);
      if first.Failed? then first else SkipFrames(data, first.end, count - 1)
  }

  predicate IsFramed(marker: byte)
  {
    marker == MARKER_NODE || marker == MARKER_TEXT || marker == MARKER_BYTES || marker == MARKER_ENUM
  }

  predicate IsCounted(marker: byte)
  {
    marker == MARKER_INTEGER || marker == MARKER_SET || marker == MARKER_SEQUENCE
  }

  /** The end of the marked component at `offset`. */
  function Skip(data: Bytes, offset: nat): (r: Skipped)
    requires offset <= |data|
    ensures r.Stop? ==> offset < r.end <= |data|
    decreases |data| - offset, 0, 0
  {
    if offset == |data| then Failed(Protocol)
    else
      var marker, following := data[offset], offset + 1;
      if marker == MARKER_NONE then Stop(following)
      else if IsFramed(marker) then SkipFrame(data, following)
      else if IsCounted(marker) then
        var count := ReadVarint(data, following);
        if count.Unreadable? then Failed(ReadFailure(count.error))
        else if marker == MARKER_INTEGER then Stop(count.end)
        else if marker == MARKER_SET then SkipFrames(data, count.end, count.number)
        else SkipComponents(data, count.end, count.number)
      else Failed(Protocol)
  }

  function SkipComponents(data: Bytes, offset: nat, count: nat): (r: Skipped)
    requires offset <= |data|
    ensures r.Stop? ==> offset <= r.end <= |data|
    decreases |data| - offset, 1, count
  {
    if count == 0 then Stop(offset)
    else
      var first := Skip(data, offset);
      if first.Failed? then first else SkipComponents(data, first.end, count - 1)
  }

  datatype Walk = Walked(last: nat, end: nat) | Stuck(error: StripError)

  /** Skips `count` fields, remembering where the last of them began. */
  function SkipFields(data: Bytes, last: nat, offset: nat, count: nat): (r: Walk)
    requires last <= offset <= |data|
    ensures r.Walked? ==> offset <= r.end <= |data| && last <= r.last <= r.end
    ensures r.Walked? && count > 0 ==> offset <= r.last < r.end
    decreases count
  {
    if count == 0 then Walked(last, offset)
    else
      var first := Skip(data, offset);
      if first.Failed? then Stuck(first.error) else SkipFields(data, offset, first.end, count - 1)
  }

  /** The row with its last field, which must be a set, replaced by the empty set. */
  function Strip(row: Bytes, fieldCount: nat -> Option<nat>): (r: Result<Bytes, StripError>)
  {
    var tag := ReadVarint(row, 0);
    if tag.Unreadable? then Err(ReadFailure(tag.error))
    else if tag.number > 0xffff || fieldCount(tag.number).None? then Err(Protocol)
    else
      Cut(row, SkipFields(row, tag.end, tag.end, fieldCount(tag.number).value))
  }

  /** What a walk over all fields makes of the row. */
  function Cut(row: Bytes, walk: Walk): Result<Bytes, StripError>
  {
    if walk.Stuck? then Err(walk.error)
    else if walk.end != |row| || walk.last >= |row| || row[walk.last] != MARKER_SET then Err(Protocol)
    else Ok(row[..walk.last] + [MARKER_SET, 0])
  }

  // ----- The loops of the reader

  method SkipComponent(data: Bytes, offset: nat) returns (r: Skipped)
    requires offset <= |data|
    ensures r == Skip(data, offset)
    decreases |data| - offset
  {
    if offset == |data| {
      return Failed(Protocol);
    }
    var marker, following := data[offset], offset + 1;
    if marker == MARKER_NONE {
      return Stop(following);
    }
    if IsFramed(marker) {
      return SkipFrame(data, following);
    }
    if !IsCounted(marker) {
      return Failed(Protocol);
    }
    var read := ReadVarintLoop(data, following);
    if read.Unreadable? {
      return Failed(ReadFailure(read.error));
    }
    if marker == MARKER_INTEGER {
      return Stop(read.end);
    }
    if marker == MARKER_SET {
      r := SkipSetMembers(data, read.end, read.number);
      return;
    }
    var after := read.end;
    for done := 0 to read.number
      invariant read.end <= after <= |data|
      invariant SkipComponents(data, read.end, read.number) == SkipComponents(data, after, read.number - done)
    {
      var inner := SkipComponent(data, after);
      if inner.Failed? {
        return inner;
      }
      after := inner.end;
    }
    return Stop(after);
  }

  method SkipSetMembers(data: Bytes, offset: nat, count: nat) returns (r: Skipped)
    requires offset <= |data|
    ensures r == SkipFrames(data, offset, count)
  {
    var after := offset;
    for done := 0 to count
      invariant offset <= after <= |data|
      invariant SkipFrames(data, offset, count) == SkipFrames(data, after, count - done)
    {
      var framed := ReadVarintLoop(data, after);
      if framed.Unreadable? {
        return Failed(ReadFailure(framed.error));
      }
      if framed.end + framed.number > |data| {
        return Failed(Protocol);
      }
      after := framed.end + framed.number;
    }
    return Stop(after);
  }

  method WithoutAnnotations(row: Bytes, fieldCount: nat -> Option<nat>) returns (r: Result<Bytes, StripError>)
    ensures r == Strip(row, fieldCount)
  {
    var tag := ReadVarintLoop(row, 0);
    if tag.Unreadable? {
      return Err(ReadFailure(tag.error));
    }
    if tag.number > 0xffff || fieldCount(tag.number).None? {
      return Err(Protocol);
    }
    var fields, last: nat, offset: nat := fieldCount(tag.number).value, tag.end, tag.end;
    for done := 0 to fields
      invariant last <= offset <= |row|
      invariant SkipFields(row, tag.end, tag.end, fields) == SkipFields(row, last, offset, fields - done)
    {
      var skipped := SkipComponent(row, offset);
      if skipped.Failed? {
        return Err(skipped.error);
      }
      last, offset := offset, skipped.end;
    }
    if offset != |row| || last >= |row| || row[last] != MARKER_SET {
      return Err(Protocol);
    }
    return Ok(row[..last] + [MARKER_SET, 0]);
  }

  // ----- The reader undoes the encoder

  /** The one thing the encoder writes that the reader cannot pass: an integer of more than
      ten bytes.  Integers from 2^64 up to that bound are skipped correctly. */
  predicate Readable(f: Field)
  {
    f.Integer? ==> DecValue(f.digits) < 0x40_0000_0000_0000_0000
  }

  predicate AllReadable(fs: seq<Field>)
  {
    fs != [] ==> Readable(fs[0]) && AllReadable(fs[1..])
  }

  predicate Writable(f: Field)
  {
    f.Integer? ==> f.digits != []
  }

  lemma FrameSkipped(data: Bytes, offset: nat, value: Bytes)
    requires |data| < U64 && At(data, offset, Frame(value))
    ensures SkipFrame(data, offset) == Stop(offset + |Frame(value)|)
  {
    AtSplit(data, offset, Leb(|value|), value);
    AtSlice(data, offset + |Leb(|value|)|, value);
    ReadUndoesWord(data, offset, |value|);
  }

  lemma {:induction false} MembersSkipped(data: Bytes, offset: nat, ns: seq<Node>)
    requires offset <= |data| < U64
    requires At(data, offset, EncodeNodes(ns, false))
    ensures SkipFrames(data, offset, |ns|) == Stop(offset + |EncodeNodes(ns, false)|)
    decreases |ns|
  {
    if ns != [] {
      var head := Frame(Encode(ns[0]));
      AtSplit(data, offset, head, EncodeNodes(ns[1..], false));
      FrameSkipped(data, offset, Encode(ns[0]));
      MembersSkipped(data, offset + |head|, ns[1..]);
    }
  }

  lemma {:induction false} ItemsSkipped(data: Bytes, offset: nat, ns: seq<Node>)
    requires offset <= |data| < U64
    requires At(data, offset, EncodeNodes(ns, true))
    ensures SkipComponents(data, offset, |ns|) == Stop(offset + |EncodeNodes(ns, true)|)
    decreases |ns|
  {
    if ns != [] {
      var head := [MARKER_NODE] + Frame(Encode(ns[0]));
      AtSplit(data, offset, head, EncodeNodes(ns[1..], true));
      ItemSkipped(data, offset, ns[0]);
      ItemsSkipped(data, offset + |head|, ns[1..]);
    }
  }

  lemma ItemSkipped(data: Bytes, offset: nat, n: Node)
    requires |data| < U64 && At(data, offset, [MARKER_NODE] + Frame(Encode(n)))
    ensures offset <= |data| && Skip(data, offset) == Stop(offset + 1 + |Frame(Encode(n))|)
  {
    AtSplit(data, offset, [MARKER_NODE], Frame(Encode(n)));
    FrameSkipped(data, offset + 1, Encode(n));
  }

  lemma CountRead(data: Bytes, offset: nat, count: nat, body: Bytes)
    requires count <= |body| && |data| < U64 && At(data, offset, Leb(count) + body)
    ensures ReadVarint(data, offset) == Number(count, offset + |Leb(count)|)
    ensures At(data, offset + |Leb(count)|, body)
  {
    AtSplit(data, offset, Leb(count), body);
    AtSlice(data, offset + |Leb(count)|, body);
    ReadUndoesWord(data, offset, count);
  }

  lemma NodesCounted(data: Bytes, offset: nat, ns: seq<Node>, marked: bool, start: nat)
    requires |data| < U64 && start == offset + |Leb(|ns|)| && At(data, offset, Leb(|ns|) + EncodeNodes(ns, marked))
    ensures start <= |data| && At(data, start, EncodeNodes(ns, marked))
    ensures ReadVarint(data, offset) == Number(|ns|, start)
  {
    NodesLength(ns, marked);
    CountRead(data, offset, |ns|, EncodeNodes(ns, marked));
    AtSlice(data, start, EncodeNodes(ns, marked));
  }

  lemma FramedSkipped(data: Bytes, offset: nat, value: Bytes)
    requires offset < |data| < U64 && IsFramed(data[offset]) && At(data, offset + 1, Frame(value))
    ensures Skip(data, offset) == Stop(offset + 1 + |Frame(value)|)
  {
    FrameSkipped(data, offset + 1, value);
  }

  lemma SetSkipped(data: Bytes, offset: nat, ns: seq<Node>)
    requires offset < |data| < U64 && data[offset] == MARKER_SET
    requires At(data, offset + 1, Leb(|ns|) + EncodeNodes(ns, false))
    ensures Skip(data, offset) == Stop(offset + 1 + |Leb(|ns|)| + |EncodeNodes(ns, false)|)
  {
    var start := offset + 1 + |Leb(|ns|)|;
    NodesCounted(data, offset + 1, ns, false, start);
    MembersSkipped(data, start, ns);
    SetUnfolds(data, offset, |ns|, start);
  }

  lemma SetUnfolds(data: Bytes, offset: nat, count: nat, start: nat)
    requires offset < |data| && data[offset] == MARKER_SET
    requires ReadVarint(data, offset + 1) == Number(count, start)
    ensures Skip(data, offset) == SkipFrames(data, start, count)
  {
  }

  lemma SequenceSkipped(data: Bytes, offset: nat, ns: seq<Node>)
    requires offset < |data| < U64 && data[offset] == MARKER_SEQUENCE
    requires At(data, offset + 1, Leb(|ns|) + EncodeNodes(ns, true))
    ensures Skip(data, offset) == Stop(offset + 1 + |Leb(|ns|)| + |EncodeNodes(ns, true)|)
  {
    var start := offset + 1 + |Leb(|ns|)|;
    NodesCounted(data, offset + 1, ns, true, start);
    ItemsSkipped(data, start, ns);
    SequenceUnfolds(data, offset, |ns|, start);
  }

  lemma SequenceUnfolds(data: Bytes, offset: nat, count: nat, start: nat)
    requires offset < |data| && data[offset] == MARKER_SEQUENCE
    requires ReadVarint(data, offset + 1) == Number(count, start)
    ensures Skip(data, offset) == SkipComponents(data, start, count)
  {
  }

  lemma PayloadSkipped(data: Bytes, offset: nat, f: Field)
    requires Writable(f) && offset < |data| < U64
    requires data[offset] == Marker(f) && At(data, offset + 1, Payload(f))
    ensures Skip(data, offset) == if Readable(f) then Stop(offset + 1 + |Payload(f)|) else Failed(Limit)
  {
    match f {
      case Null =>
      case Child(node) => FramedSkipped(data, offset, Encode(node));
      case Text(text) => FramedSkipped(data, offset, text);
      case Blob(blob) => FramedSkipped(data, offset, blob);
      case Enumeration(name) => FramedSkipped(data, offset, name);
      case Integer(digits) => ReadUndoesLeb(data, offset + 1, DecValue(digits));
      case Set(members) => SetSkipped(data, offset, members);
      case Sequence(items) => SequenceSkipped(data, offset, items);
    }
  }

  /** Wherever it occurs an encoded field is passed whole exactly when it is readable. */
  lemma FieldSkipped(data: Bytes, offset: nat, f: Field)
    requires Writable(f) && |data| < U64 && At(data, offset, EncodeField(f))
    ensures Skip(data, offset) == if Readable(f) then Stop(offset + |EncodeField(f)|) else Failed(Limit)
  {
    AtSplit(data, offset, [Marker(f)], Payload(f));
    PayloadSkipped(data, offset, f);
  }

  /** Where a walk over encoded fields ends, and where it passed the last of them. */
  function WalkOver(fs: seq<Field>, last: nat, offset: nat): Walk
  {
    if AllReadable(fs)
    then Walked(if fs == [] then last else offset + |EncodeFields(fs[..|fs| - 1])|, offset + |EncodeFields(fs)|)
    else Stuck(Limit)
  }

  lemma WalkOverStep(fs: seq<Field>, last: nat, offset: nat)
    requires fs != []
    ensures WalkOver(fs, last, offset) ==
            if Readable(fs[0]) then WalkOver(fs[1..], offset, offset + |EncodeField(fs[0])|) else Stuck(Limit)
  {
    if |fs| > 1 {
      assert fs[..|fs| - 1][1..] == fs[1..][..|fs| - 2];
    }
  }

  lemma {:induction false} FieldsSkipped(data: Bytes, offset: nat, fs: seq<Field>, last: nat)
    requires last <= offset <= |data| < U64 && forall f | f in fs :: Writable(f)
    requires At(data, offset, EncodeFields(fs))
    ensures SkipFields(data, last, offset, |fs|) == WalkOver(fs, last, offset)
    decreases |fs|
  {
    if fs != [] {
      WalkOverStep(fs, last, offset);
      AtSplit(data, offset, EncodeField(fs[0]), EncodeFields(fs[1..]));
      FieldSkipped(data, offset, fs[0]);
      if Readable(fs[0]) {
        FieldsSkipped(data, offset + |EncodeField(fs[0])|, fs[1..], offset);
      }
    }
  }

  lemma {:induction false} FieldsSplit(fs: seq<Field>, k: nat)
    requires k <= |fs|
    ensures EncodeFields(fs) == EncodeFields(fs[..k]) + EncodeFields(fs[k..])
    decreases k
  {
    if k == 0 {
      assert fs[0..] == fs;
    } else {
      FieldsSplit(fs[1..], k - 1);
      Concat(EncodeField(fs[0]), EncodeFields(fs[1..][..k - 1]), EncodeFields(fs[1..][k - 1..]));
      assert fs[..k][1..] == fs[1..][..k - 1] && fs[1..][k - 1..] == fs[k..];
    }
  }

  lemma {:induction false} SkipFieldsSplit(data: Bytes, last: nat, offset: nat, j: nat, k: nat)
    requires last <= offset <= |data|
    ensures SkipFields(data, last, offset, j + k)
         == var front := SkipFields(data, last, offset, j);
            if front.Stuck? then front else SkipFields(data, front.last, front.end, k)
    decreases j
  {
    if j > 0 && Skip(data, offset).Stop? {
      SkipFieldsSplit(data, offset, Skip(data, offset).end, j - 1, k);
    }
  }

  function Stripped(n: Node): Node
    requires n.fields != []
  {
    n.(fields := n.fields[..|n.fields| - 1] + [Set([])])
  }

  ghost predicate CanStrip(n: Node, fieldCount: nat -> Option<nat>)
  {
    && n.tag <= 0xffff
    && fieldCount(n.tag) == Some(|n.fields|)
    && n.fields != []
    && n.fields[|n.fields| - 1].Set?
    && AllReadable(n.fields)
  }

  /** On every encoded node the reader succeeds exactly when the schema lists its fields, the
      last is a set and no integer is oversized, and then yields the encoding of the same node
      with that set empty. */
  lemma StripUndoesEncode(n: Node, fieldCount: nat -> Option<nat>)
    requires n.tag < U64 && |Encode(n)| < U64 && forall f | f in n.fields :: Writable(f)
    ensures Strip(Encode(n), fieldCount).Ok? <==> CanStrip(n, fieldCount)
    ensures CanStrip(n, fieldCount) ==> Strip(Encode(n), fieldCount) == Ok(Encode(Stripped(n)))
  {
    TagRead(n);
    if n.tag <= 0xffff && fieldCount(n.tag).Some? {
      StripsWhen(n, fieldCount, fieldCount(n.tag).value);
      if CanStrip(n, fieldCount) {
        StripsTo(n, fieldCount, fieldCount(n.tag).value);
      }
    }
  }

  lemma StripsWhen(n: Node, fieldCount: nat -> Option<nat>, count: nat)
    requires n.tag <= 0xffff && |Encode(n)| < U64 && forall f | f in n.fields :: Writable(f)
    requires fieldCount(n.tag) == Some(count)
    ensures Strip(Encode(n), fieldCount).Ok? <==> CanStrip(n, fieldCount)
  {
    var row, at := Encode(n), |Leb(n.tag)|;
    StripIsCut(n, fieldCount, count);
    FieldsRead(n, count);
    var r := SkipFields(row, at, at, count);
    if count == 0 {
      assert r == Walked(at, at);
    } else if r.Walked? && r.end == |row| {
      MarkerOfSet(n.fields[count - 1]);
    }
  }

  lemma StripsTo(n: Node, fieldCount: nat -> Option<nat>, count: nat)
    requires |Encode(n)| < U64 && (forall f | f in n.fields :: Writable(f)) && n.tag <= 0xffff && n.fields != []
    requires fieldCount(n.tag) == Some(count) && Strip(Encode(n), fieldCount).Ok?
    ensures Strip(Encode(n), fieldCount) == Ok(Encode(Stripped(n)))
  {
    StripIsCut(n, fieldCount, count);
    CutToStripped(n, count, SkipFields(Encode(n), |Leb(n.tag)|, |Leb(n.tag)|, count));
  }

  lemma CutToStripped(n: Node, count: nat, walk: Walk)
    requires |Encode(n)| < U64 && (forall f | f in n.fields :: Writable(f)) && n.fields != []
    requires |Leb(n.tag)| <= |Encode(n)| && walk == SkipFields(Encode(n), |Leb(n.tag)|, |Leb(n.tag)|, count)
    requires Cut(Encode(n), walk).Ok?
    ensures Cut(Encode(n), walk) == Ok(Encode(Stripped(n)))
  {
    CutWhere(Encode(n), walk);
    FieldsRead(n, count);
    StrippedBytes(n, walk.last);
  }

  lemma CutWhere(row: Bytes, walk: Walk)
    requires Cut(row, walk).Ok?
    ensures walk.Walked? && walk.end == |row| && walk.last < |row|
    ensures Cut(row, walk) == Ok(row[..walk.last] + [MARKER_SET, 0])
  {
  }

  lemma StripIsCut(n: Node, fieldCount: nat -> Option<nat>, count: nat)
    requires n.tag <= 0xffff && fieldCount(n.tag) == Some(count)
    ensures |Leb(n.tag)| <= |Encode(n)|
    ensures Strip(Encode(n), fieldCount) == Cut(Encode(n), SkipFields(Encode(n), |Leb(n.tag)|, |Leb(n.tag)|, count))
  {
    TagRead(n);
  }

  lemma {:induction false} ReadableUpdate(fs: seq<Field>, i: nat, f: Field)
    requires i < |fs| && AllReadable(fs)
    ensures AllReadable(fs[i := f]) <==> Readable(f)
    decreases i
  {
    var gs := fs[i := f];
    if i == 0 {
      assert gs[1..] == fs[1..];
    } else {
      ReadableUpdate(fs[1..], i - 1, f);
      assert gs[1..] == fs[1..][i - 1 := f];
    }
  }

  /** In any row that can be stripped, an integer put in place of a field before the last is what
      decides: the encoder writes it, but the reader passes it exactly when it is below 2^70. */
  lemma HugeIntegerRefused(n: Node, i: nat, digits: seq<digit>, fieldCount: nat -> Option<nat>)
    requires CanStrip(n, fieldCount) && (forall f | f in n.fields :: Writable(f))
    requires i < |n.fields| - 1 && digits != [] && |Encode(n.(fields := n.fields[i := Integer(digits)]))| < U64
    ensures Strip(Encode(n.(fields := n.fields[i := Integer(digits)])), fieldCount).Ok?
       <==> DecValue(digits) < 0x40_0000_0000_0000_0000
  {
    var m := n.(fields := n.fields[i := Integer(digits)]);
    ReadableUpdate(n.fields, i, Integer(digits));
    StripUndoesEncode(m, fieldCount);
  }

  lemma MarkerOfSet(f: Field)
    ensures Marker(f) == MARKER_SET <==> f.Set?
  {
  }

  lemma TagRead(n: Node)
    requires n.tag < U64
    ensures ReadVarint(Encode(n), 0) == Number(n.tag, |Leb(n.tag)|)
  {
    AtSlice(Encode(n), 0, Leb(n.tag));
    ReadUndoesLeb(Encode(n), 0, n.tag);
  }

  lemma StrippedBytes(n: Node, last: nat)
    requires n.fields != [] && last == |Leb(n.tag)| + |EncodeFields(n.fields[..|n.fields| - 1])|
    ensures last <= |Encode(n)| && Encode(Stripped(n)) == Encode(n)[..last] + [MARKER_SET, 0]
  {
    var init, tail := n.fields[..|n.fields| - 1], [Set([])];
    FieldsSplit(n.fields, |init|);
    FieldsSplit(Stripped(n).fields, |init|);
    assert Stripped(n).fields[..|init|] == init && Stripped(n).fields[|init|..] == tail;
    assert tail[1..] == [] && Payload(tail[0]) == [0];
    assert EncodeFields(tail) == [MARKER_SET, 0];
    Concat(Leb(n.tag), EncodeFields(init), EncodeFields(tail));
    Concat(Leb(n.tag), EncodeFields(init), EncodeFields(n.fields[|init|..]));
  }

  lemma FieldsReadShort(n: Node, count: nat)
    requires |Encode(n)| < U64 && (forall f | f in n.fields :: Writable(f)) && count < |n.fields|
    ensures var r := SkipFields(Encode(n), |Leb(n.tag)|, |Leb(n.tag)|, count); !(r.Walked? && r.end == |Encode(n)|)
  {
    var row, at, fs := Encode(n), |Leb(n.tag)|, n.fields;
    var front, back := EncodeFields(fs[..count]), EncodeFields(fs[count..]);
    FieldsSplit(fs, count);
    Concat(Leb(n.tag), front, back);
    AtMiddle(Leb(n.tag), front, back);
    FieldsSkipped(row, at, fs[..count], at);
    assert back != [];
  }

  lemma FieldsReadLong(n: Node, count: nat)
    requires |Encode(n)| < U64 && (forall f | f in n.fields :: Writable(f)) && count > |n.fields|
    ensures var r := SkipFields(Encode(n), |Leb(n.tag)|, |Leb(n.tag)|, count); !(r.Walked? && r.end == |Encode(n)|)
  {
    var row, at, fs := Encode(n), |Leb(n.tag)|, n.fields;
    AtSlice(row, at, EncodeFields(fs));
    FieldsSkipped(row, at, fs, at);
    SkipFieldsSplit(row, at, at, |fs|, count - |fs|);
    var r := SkipFields(row, at, at, |fs|);
    if r.Walked? { assert Skip(row, r.end).Failed?; }
  }

  lemma LastField(fs: seq<Field>)
    requires fs != []
    ensures EncodeFields(fs) == EncodeFields(fs[..|fs| - 1]) + EncodeField(fs[|fs| - 1])
  {
    FieldsSplit(fs, |fs| - 1);
    assert fs[|fs| - 1..][1..] == [];
    assert EncodeFields(fs[|fs| - 1..]) == EncodeField(fs[|fs| - 1]);
  }

  lemma FieldsReadAll(n: Node)
    requires |Encode(n)| < U64 && forall f | f in n.fields :: Writable(f)
    ensures var r, at := SkipFields(Encode(n), |Leb(n.tag)|, |Leb(n.tag)|, |n.fields|), |Leb(n.tag)|;
      && (r.Walked? && r.end == |Encode(n)| <==> AllReadable(n.fields))
      && (AllReadable(n.fields) && n.fields != [] ==>
            && r.last == at + |EncodeFields(n.fields[..|n.fields| - 1])| < |Encode(n)|
            && Encode(n)[r.last] == Marker(n.fields[|n.fields| - 1]))
  {
    var row, at, fs := Encode(n), |Leb(n.tag)|, n.fields;
    AtSlice(row, at, EncodeFields(fs));
    FieldsSkipped(row, at, fs, at);
    if fs != [] {
      LastField(fs);
    }
  }

  lemma FieldsRead(n: Node, count: nat)
    requires |Encode(n)| < U64 && forall f | f in n.fields :: Writable(f)
    ensures var r, at := SkipFields(Encode(n), |Leb(n.tag)|, |Leb(n.tag)|, count), |Leb(n.tag)|;
      && (r.Walked? && r.end == |Encode(n)| <==> count == |n.fields| && AllReadable(n.fields))
      && (r.Walked? && r.end == |Encode(n)| && count > 0 ==>
            && var init := n.fields[..count - 1];
            && r.last == at + |EncodeFields(init)| < |Encode(n)|
            && Encode(n)[r.last] == Marker(n.fields[count - 1]))
  {
    if count < |n.fields| {
      FieldsReadShort(n, count);
    } else if count > |n.fields| {
      FieldsReadLong(n, count);
    } else {
      FieldsReadAll(n);
    }
  }

  lemma {:induction false} SameFieldsAppend(fs: seq<Field>, gs: seq<Field>, f: Field, g: Field)
    ensures SameFields(fs + [f], gs + [g]) <==> SameFields(fs, gs) && SameField(f, g)
  {
    if fs != [] && gs != [] {
      SameFieldsAppend(fs[1..], gs[1..], f, g);
      assert (fs + [f])[1..] == fs[1..] + [f] && (gs + [g])[1..] == gs[1..] + [g];
    } else if |fs| == |gs| {
      assert (fs + [f])[1..] == [] && (gs + [g])[1..] == [];
    }
  }

  lemma StrippedWellFormed(n: Node)
    requires WellFormed(n) && n.fields != []
    ensures WellFormed(Stripped(n)) && forall f | f in n.fields :: Writable(f)
  {
    forall f | f in n.fields
      ensures Writable(f)
    {
      assert WellFormedField(f);
    }
    forall f | f in Stripped(n).fields
      ensures WellFormedField(f)
    {
      assert f in n.fields || f == Set([]);
    }
  }

  /** Two stripped rows agree exactly when everything but the annotations agreed. */
  lemma StrippedAgree(a: Node, b: Node, fieldCount: nat -> Option<nat>)
    requires |Encode(a)| < U64 && WellFormed(a) && CanStrip(a, fieldCount)
    requires |Encode(b)| < U64 && WellFormed(b) && CanStrip(b, fieldCount)
    ensures Strip(Encode(a), fieldCount) == Strip(Encode(b), fieldCount)
       <==> a.tag == b.tag && SameFields(a.fields[..|a.fields| - 1], b.fields[..|b.fields| - 1])
  {
    StrippedWellFormed(a);
    StrippedWellFormed(b);
    StripUndoesEncode(a, fieldCount);
    StripUndoesEncode(b, fieldCount);
    EncodeDecides(Stripped(a), Stripped(b));
    SameFieldsAppend(a.fields[..|a.fields| - 1], b.fields[..|b.fields| - 1], Set([]), Set([]));
  }

  // ----- Stripping twice is stripping once, for every accepted byte string

  ghost predicate SameUpTo(data: Bytes, other: Bytes, end: nat)
  {
    end <= |data| && end <= |other| && data[..end] == other[..end]
  }

  lemma SameUpToLess(data: Bytes, other: Bytes, end: nat, sooner: nat)
    requires SameUpTo(data, other, end) && sooner <= end
    ensures SameUpTo(data, other, sooner)
  {
    assert data[..sooner] == data[..end][..sooner] && other[..sooner] == other[..end][..sooner];
  }

  lemma FrameLocal(data: Bytes, other: Bytes, offset: nat)
    requires SkipFrame(data, offset).Stop? && SameUpTo(data, other, SkipFrame(data, offset).end)
    ensures SkipFrame(other, offset) == SkipFrame(data, offset)
  {
    SameUpToLess(data, other, SkipFrame(data, offset).end, ReadVarint(data, offset).end);
    ReadVarintLocal(data, other, offset);
  }

  lemma {:induction false} FramesLocal(data: Bytes, other: Bytes, offset: nat, count: nat)
    requires offset <= |data| && offset <= |other|
    requires SkipFrames(data, offset, count).Stop? && SameUpTo(data, other, SkipFrames(data, offset, count).end)
    ensures SkipFrames(other, offset, count) == SkipFrames(data, offset, count)
    decreases count
  {
    if count > 0 {
      var end := SkipFrame(data, offset).end;
      SameUpToLess(data, other, SkipFrames(data, offset, count).end, end);
      FrameLocal(data, other, offset);
      FramesLocal(data, other, end, count - 1);
    }
  }

  lemma {:induction false} SkipLocal(data: Bytes, other: Bytes, offset: nat)
    requires offset <= |data| && offset <= |other|
    requires Skip(data, offset).Stop? && SameUpTo(data, other, Skip(data, offset).end)
    ensures Skip(other, offset) == Skip(data, offset)
    decreases |data| - offset, 0, 0
  {
    var end := Skip(data, offset).end;
    assert data[offset] == data[..end][offset] == other[..end][offset] == other[offset];
    var marker := data[offset];
    if IsFramed(marker) {
      FrameLocal(data, other, offset + 1);
    } else if marker != MARKER_NONE {
      var count, after := ReadVarint(data, offset + 1).number, ReadVarint(data, offset + 1).end;
      SameUpToLess(data, other, end, after);
      ReadVarintLocal(data, other, offset + 1);
      if marker == MARKER_SET {
        FramesLocal(data, other, after, count);
      } else if marker == MARKER_SEQUENCE {
        ComponentsLocal(data, other, after, count);
      }
    }
  }

  lemma {:induction false} ComponentsLocal(data: Bytes, other: Bytes, offset: nat, count: nat)
    requires offset <= |data| && offset <= |other|
    requires SkipComponents(data, offset, count).Stop?
    requires SameUpTo(data, other, SkipComponents(data, offset, count).end)
    ensures SkipComponents(other, offset, count) == SkipComponents(data, offset, count)
    decreases |data| - offset, 1, count
  {
    if count > 0 {
      var end := Skip(data, offset).end;
      SameUpToLess(data, other, SkipComponents(data, offset, count).end, end);
      SkipLocal(data, other, offset);
      ComponentsLocal(data, other, end, count - 1);
    }
  }

  /** Replacing everything from the last field on by the empty set keeps the field walk. */
  lemma {:induction false} FieldsLocal(data: Bytes, other: Bytes, last: nat, offset: nat, count: nat)
    requires last <= offset <= |data| && offset <= |other| && count > 0
    requires SkipFields(data, last, offset, count).Walked?
    requires var at := SkipFields(data, last, offset, count).last;
      SameUpTo(data, other, at) && other == data[..at] + [MARKER_SET, 0]
    ensures SkipFields(other, last, offset, count)
         == Walked(SkipFields(data, last, offset, count).last, |other|)
    decreases count
  {
    var at, end := SkipFields(data, last, offset, count).last, Skip(data, offset).end;
    if count == 1 {
      EmptySetSkipped(data[..at]);
    } else {
      SameUpToLess(data, other, at, end);
      SkipLocal(data, other, offset);
      FieldsLocal(data, other, offset, end, count - 1);
    }
  }

  lemma EmptySetSkipped(front: Bytes)
    ensures Skip(front + [MARKER_SET, 0], |front|) == Stop(|front| + 2)
  {
    ReadUndoesLeb(front + [MARKER_SET, 0], |front| + 1, 0);
  }

  lemma StripIdempotent(row: Bytes, fieldCount: nat -> Option<nat>)
    requires Strip(row, fieldCount).Ok?
    ensures Strip(Strip(row, fieldCount).value, fieldCount) == Strip(row, fieldCount)
  {
    var r := Strip(row, fieldCount).value;
    var tag, offset := ReadVarint(row, 0).number, ReadVarint(row, 0).end;
    var last := SkipFields(row, offset, offset, fieldCount(tag).value).last;
    assert SameUpTo(row, r, last);
    SameUpToLess(row, r, last, offset);
    ReadVarintLocal(row, r, 0);
    assert fieldCount(tag).value > 0;
    FieldsLocal(row, r, offset, offset, fieldCount(tag).value);
    assert r[..last] + [MARKER_SET, 0] == r;
  }
}
