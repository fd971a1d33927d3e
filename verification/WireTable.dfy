/** Table sections of the wire image: a row count, one offset per row and one past the last, and
    the rows themselves, in strictly ascending order. */
module WireTable {
  import opened Ordering
  import opened FixedWidth

  // ----- The encoding

  function Payload(rows: seq<Bytes>): Bytes
  {
    if rows == [] then [] else Payload(rows[..|rows| - 1]) + rows[|rows| - 1]
  }

  /** Where every row starts, and where the last one ends. */
  function Offsets(rows: seq<Bytes>): (bs: Bytes)
    ensures |bs| == 8 * (|rows| + 1)
  {
    if rows == [] then ToLE(|rows|, WORD) else Offsets(rows[..|rows| - 1]) + ToLE(|Payload(rows)|, WORD)
  }

  function EncodeTable(rows: seq<Bytes>): Bytes
  {
    ToLE(|rows|, WORD) + Offsets(rows) + Payload(rows)
  }

  /** The section encodes the rows, whose count and offsets are 64-bit words. */
  ghost predicate IsTable(section: Bytes, rows: seq<Bytes>)
  {
    section == EncodeTable(rows) && |rows| < U64 && |Payload(rows)| < U64 && Ascending(rows, ByteOrder)
  }

  // ----- The reader

  /** Counts and offsets are words of eight bytes. */
  const WORD: nat := 8

  function Word(data: Bytes, at: nat): nat { LEAt(data, at, WORD) }

  function Offset(section: Bytes, i: nat): nat { Word(section, 8 + 8 * i) }

  function Min(a: nat, b: nat): nat { if a < b then a else b }

  /** Slicing clips its bounds. */
  function Slice(data: Bytes, from: nat, to: nat): Bytes
    decreases if from < to then to - from else 0, |data|
  {
    if from >= to || from >= |data| then [] else [data[from]] + Slice(data, from + 1, to)
  }

  function Row(section: Bytes, count: nat, i: nat): Bytes
  {
    Slice(section, 8 * (count + 2) + Offset(section, i), 8 * (count + 2) + Offset(section, i + 1))
  }

  /** The first rows are in strictly ascending order. */
  ghost predicate RowsRise(section: Bytes, count: nat, upTo: nat)
  {
    || upTo < 2
    || (&& RowsRise(section, count, upTo - 1)
        && LexLess(Row(section, count, upTo - 2), Row(section, count, upTo - 1)))
  }

  ghost predicate OffsetsRise(section: Bytes, upTo: nat)
  {
    upTo < 2 || (OffsetsRise(section, upTo - 1) && Offset(section, upTo - 2) <= Offset(section, upTo - 1))
  }

  ghost predicate Regular(section: Bytes, count: nat)
  {
    && 16 <= |section| && Word(section, 0) == count && 8 * (count + 2) <= |section|
    && Offset(section, 0) == 0 && OffsetsRise(section, count + 1)
    && Offset(section, count) == |section| - 8 * (count + 2)
    && RowsRise(section, count, count)
  }

  lemma {:induction false} OffsetsBelow(section: Bytes, upTo: nat, i: nat, j: nat)
    requires OffsetsRise(section, upTo) && i <= j < upTo
    ensures Offset(section, i) <= Offset(section, j)
    decreases upTo, j
  {
    if j < upTo - 1 {
      OffsetsBelow(section, upTo - 1, i, j);
    } else if i < j {
      OffsetsBelow(section, upTo - 1, i, j - 1);
    }
  }

  lemma {:induction false} RowsBelow(section: Bytes, count: nat, upTo: nat, i: nat, j: nat)
    requires RowsRise(section, count, upTo) && i < j < upTo
    ensures LexLess(Row(section, count, i), Row(section, count, j))
    decreases upTo
  {
    if j < upTo - 1 {
      RowsBelow(section, count, upTo - 1, i, j);
    } else if i < j - 1 {
      RowsBelow(section, count, upTo - 1, i, j - 1);
      LexTransitive(Row(section, count, i), Row(section, count, j - 1), Row(section, count, j));
    }
  }

  /** One offset, and the row it starts. */
  method CheckRow(section: Bytes, count: nat, index: nat, previousOffset: nat, previousRow: Option<Bytes>)
    returns (ok: bool, offset: nat, row: Option<Bytes>)
    requires index <= count && 8 * (count + 2) <= |section|
    requires previousOffset == (if index == 0 then 0 else Offset(section, index - 1))
    requires index < count ==> previousRow == if index == 0 then None else Some(Row(section, count, index - 1))
    ensures !ok ==> !Regular(section, count)
    ensures ok ==> offset == Offset(section, index) <= |section| - 8 * (count + 2)
    ensures ok ==> if index == 0 then offset == 0 else Offset(section, index - 1) <= offset
    ensures ok && index < count ==> row == Some(Row(section, count, index))
    ensures ok && 0 < index < count ==> LexLess(Row(section, count, index - 1), Row(section, count, index))
  {
    offset, row := Offset(section, index), previousRow;
    if offset < previousOffset || offset > |section| - 8 * (count + 2) || (index == 0 && offset != 0) {
      RefusedOffset(section, count, index);
      return false, offset, row;
    }
    if index < count {
      row := Some(Row(section, count, index));
      if previousRow.Some? && !LexLess(previousRow.value, row.value) {
        RefusedRow(section, count, index);
        return false, offset, row;
      }
    }
    ok := true;
  }

  method ValidateTable(section: Bytes, expected: nat) returns (ok: bool)
    ensures ok <==> Regular(section, expected)
  {
    if |section| < 16 {
      return false;
    }
    var count := Word(section, 0);
    if count != expected || 8 * (count + 2) > |section| {
      return false;
    }
    var previousOffset := 0;
    var previousRow: Option<Bytes> := None;
    for index := 0 to count + 1
      invariant previousOffset == if index == 0 then 0 else Offset(section, index - 1)
      invariant index > 0 ==> Offset(section, 0) == 0
      invariant OffsetsRise(section, index) && RowsRise(section, count, Min(index, count))
      invariant index <= count ==> previousRow == if index == 0 then None else Some(Row(section, count, index - 1))
    {
      ok, previousOffset, previousRow := CheckRow(section, count, index, previousOffset, previousRow);
      if !ok {
        return;
      }
    }
    ok := previousOffset == |section| - 8 * (count + 2);
  }

  lemma RefusedRow(section: Bytes, count: nat, index: nat)
    requires 0 < index < count && !LexLess(Row(section, count, index - 1), Row(section, count, index))
    ensures !Regular(section, count)
  {
    if Regular(section, count) {
      RowsBelow(section, count, count, index - 1, index);
    }
  }

  lemma RefusedOffset(section: Bytes, count: nat, index: nat)
    requires index <= count && 8 * (count + 2) <= |section|
    requires
      || (index > 0 && Offset(section, index) < Offset(section, index - 1))
      || Offset(section, index) > |section| - 8 * (count + 2)
      || (index == 0 && Offset(section, index) != 0)
    ensures !Regular(section, count)
  {
    if Regular(section, count) {
      OffsetsBelow(section, count + 1, index, count);
      if index > 0 {
        OffsetsBelow(section, count + 1, index - 1, index);
      }
    }
  }

  // ----- A regular section encodes its rows

  lemma WordAt(data: Bytes, at: nat)
    requires at + WORD <= |data|
    ensures At(data, at, ToLE(Word(data, at), WORD)) && Word(data, at) < U64
  {
    AtLE(data, at, WORD);
    Widths();
  }

  lemma AtWord(data: Bytes, at: nat, n: nat)
    requires At(data, at, ToLE(n, WORD)) && n < U64
    ensures Word(data, at) == n
  {
    Widths();
    LEAtDenotes(data, at, n, WORD);
  }

  lemma {:induction false} SliceAt(data: Bytes, from: nat, to: nat)
    requires from <= to <= |data|
    ensures At(data, from, Slice(data, from, to)) && |Slice(data, from, to)| == to - from
    decreases if from < to then to - from else 0
  {
    if from < to {
      SliceAt(data, from + 1, to);
      var whole, rest := Slice(data, from, to), Slice(data, from + 1, to);
      assert whole == [data[from]] + rest;
      assert whole[0] == data[from] && whole[1..] == rest;
    }
  }

  lemma {:induction false} AtIsSlice(data: Bytes, from: nat, part: Bytes)
    requires At(data, from, part)
    ensures Slice(data, from, from + |part|) == part
    decreases |part|
  {
    if part != [] {
      AtIsSlice(data, from + 1, part[1..]);
      assert part == [part[0]] + part[1..];
    }
  }

  /** Rows that lie one after the other. */
  ghost predicate Adjoin(data: Bytes, base: nat, rows: seq<Bytes>, offsets: seq<nat>)
    decreases |rows|
  {
    && |offsets| == |rows| + 1
    && if rows == [] then offsets[0] == 0
       else
         var n := |rows| - 1;
         && Adjoin(data, base, rows[..n], offsets[..n + 1])
         && offsets[n] + |rows[n]| == offsets[n + 1] && At(data, base + offsets[n], rows[n])
  }

  lemma AdjoinAppend(data: Bytes, base: nat, rows: seq<Bytes>, offsets: seq<nat>, row: Bytes, next: nat)
    requires Adjoin(data, base, rows, offsets)
    requires offsets[|rows|] + |row| == next && At(data, base + offsets[|rows|], row)
    ensures Adjoin(data, base, rows + [row], offsets + [next])
  {
    AppendFront(rows, row);
    AppendFront(offsets, next);
  }

  lemma {:induction false} AdjoiningPayload(data: Bytes, base: nat, rows: seq<Bytes>, offsets: seq<nat>)
    requires Adjoin(data, base, rows, offsets) && base <= |data|
    ensures |Payload(rows)| == offsets[|rows|] && At(data, base, Payload(rows))
    decreases |rows|
  {
    if rows != [] {
      var n := |rows| - 1;
      AdjoiningPayload(data, base, rows[..n], offsets[..n + 1]);
      AtSplit(data, base, Payload(rows[..n]), rows[n]);
    }
  }

  ghost predicate OffsetsLie(data: Bytes, at: nat, offsets: seq<nat>)
  {
    if offsets == [] then true
    else
      var n := |offsets| - 1;
      OffsetsLie(data, at, offsets[..n]) && At(data, at + 8 * n, ToLE(offsets[n], WORD))
  }

  lemma FinalOffset(data: Bytes, at: nat, offsets: seq<nat>)
    requires OffsetsLie(data, at, offsets) && offsets != []
    ensures var n := |offsets| - 1; OffsetsLie(data, at, offsets[..n]) && At(data, at + 8 * n, ToLE(offsets[n], WORD))
  {
  }

  lemma {:induction false} LyingOffsets(data: Bytes, at: nat, base: nat, rows: seq<Bytes>, offsets: seq<nat>)
    requires Adjoin(data, base, rows, offsets) && base <= |data| && OffsetsLie(data, at, offsets)
    ensures At(data, at, Offsets(rows))
    decreases |rows|
  {
    FinalOffset(data, at, offsets);
    AdjoiningPayload(data, base, rows, offsets);
    var n := |rows|;
    if rows == [] {
      assert Offsets(rows) == ToLE(offsets[n], WORD);
    } else {
      var before := Offsets(rows[..n - 1]);
      LyingOffsets(data, at, base, rows[..n - 1], offsets[..n]);
      AtSplit(data, at, before, ToLE(offsets[n], WORD));
      assert Offsets(rows) == before + ToLE(offsets[n], WORD);
    }
  }

  ghost function RowsOf(section: Bytes, count: nat, k: nat): (rows: seq<Bytes>)
    ensures |rows| == k && forall i | 0 <= i < k :: rows[i] == Row(section, count, i)
  {
    if k == 0 then [] else RowsOf(section, count, k - 1) + [Row(section, count, k - 1)]
  }

  ghost function OffsetsOf(section: Bytes, k: nat): (offsets: seq<nat>)
    ensures |offsets| == k
  {
    if k == 0 then [] else OffsetsOf(section, k - 1) + [Offset(section, k - 1)]
  }

  ghost predicate OffsetsFit(section: Bytes, count: nat)
  {
    && 8 * (count + 2) <= |section| && Offset(section, 0) == 0 && OffsetsRise(section, count + 1)
    && Offset(section, count) == |section| - 8 * (count + 2)
  }

  lemma RowLies(section: Bytes, count: nat, i: nat)
    requires OffsetsFit(section, count) && i < count
    ensures Offset(section, i) + |Row(section, count, i)| == Offset(section, i + 1)
    ensures At(section, 8 * (count + 2) + Offset(section, i), Row(section, count, i))
  {
    OffsetsBelow(section, count + 1, i, i + 1);
    OffsetsBelow(section, count + 1, i + 1, count);
    SliceAt(section, 8 * (count + 2) + Offset(section, i), 8 * (count + 2) + Offset(section, i + 1));
  }

  lemma {:induction false} RowsAdjoin(section: Bytes, count: nat, base: nat, k: nat)
    requires OffsetsFit(section, count) && base == 8 * (count + 2) && k <= count
    ensures Adjoin(section, base, RowsOf(section, count, k), OffsetsOf(section, k + 1))
    ensures OffsetsOf(section, k + 1)[k] == Offset(section, k)
    decreases k
  {
    if k > 0 {
      RowsAdjoin(section, count, base, k - 1);
      RowLies(section, count, k - 1);
      AdjoinAppend(section, base, RowsOf(section, count, k - 1), OffsetsOf(section, k),
                   Row(section, count, k - 1), Offset(section, k));
    }
  }

  lemma OffsetsAppend(data: Bytes, at: nat, offsets: seq<nat>, next: nat)
    requires OffsetsLie(data, at, offsets) && At(data, at + 8 * |offsets|, ToLE(next, WORD))
    ensures OffsetsLie(data, at, offsets + [next])
  {
    AppendFront(offsets, next);
  }

  lemma {:induction false} WordsLie(section: Bytes, k: nat)
    requires 8 * (k + 1) <= |section|
    ensures OffsetsLie(section, 8, OffsetsOf(section, k))
  {
    if k > 0 {
      WordsLie(section, k - 1);
      AtLE(section, 8 + 8 * (k - 1), WORD);
      OffsetsAppend(section, 8, OffsetsOf(section, k - 1), Offset(section, k - 1));
    }
  }

  lemma RisingRowsAscend(section: Bytes, count: nat)
    requires RowsRise(section, count, count)
    ensures Ascending(RowsOf(section, count, count), ByteOrder)
  {
    var rows := RowsOf(section, count, count);
    forall i, j | 0 <= i < j < |rows|
      ensures LexLess(ByteOrder(rows[i]), ByteOrder(rows[j]))
    {
      RowsBelow(section, count, count, i, j);
    }
  }

  lemma WholeAt(data: Bytes, whole: Bytes)
    requires At(data, 0, whole) && |whole| == |data|
    ensures data == whole
  {
    AtSlice(data, 0, whole);
  }

  lemma TableWhole(section: Bytes, rows: seq<Bytes>)
    requires At(section, 0, ToLE(|rows|, WORD)) && At(section, 8, Offsets(rows))
    requires At(section, 8 * (|rows| + 2), Payload(rows))
    requires |section| == 8 * (|rows| + 2) + |Payload(rows)|
    ensures section == EncodeTable(rows)
  {
    AtSplit(section, 0, ToLE(|rows|, WORD), Offsets(rows));
    AtSplit(section, 0, ToLE(|rows|, WORD) + Offsets(rows), Payload(rows));
    WholeAt(section, EncodeTable(rows));
  }

  lemma FittingParts(section: Bytes, count: nat)
    requires OffsetsFit(section, count)
    ensures var rows := RowsOf(section, count, count);
      && At(section, 8, Offsets(rows)) && At(section, 8 * (count + 2), Payload(rows))
      && |Payload(rows)| == |section| - 8 * (count + 2)
  {
    var rows, offsets := RowsOf(section, count, count), OffsetsOf(section, count + 1);
    RowsAdjoin(section, count, 8 * (count + 2), count);
    WordsLie(section, count + 1);
    AdjoiningPayload(section, 8 * (count + 2), rows, offsets);
    LyingOffsets(section, 8, 8 * (count + 2), rows, offsets);
  }

  lemma RegularIsTable(section: Bytes, count: nat)
    requires Regular(section, count)
    ensures IsTable(section, RowsOf(section, count, count))
  {
    FittingParts(section, count);
    WordAt(section, 0);
    WordAt(section, 8 + 8 * count);
    TableWhole(section, RowsOf(section, count, count));
    RisingRowsAscend(section, count);
  }

  // ----- An encoding is regular

  lemma {:induction false} PayloadPart(data: Bytes, base: nat, rows: seq<Bytes>, i: nat)
    requires At(data, base, Payload(rows)) && i < |rows|
    ensures |Payload(rows[..i])| + |rows[i]| == |Payload(rows[..i + 1])| <= |Payload(rows)|
    ensures At(data, base + |Payload(rows[..i])|, rows[i])
    decreases |rows|
  {
    var init, last := rows[..|rows| - 1], rows[|rows| - 1];
    AtSplit(data, base, Payload(init), last);
    if i < |init| {
      PayloadPart(data, base, init, i);
      assert init[..i] == rows[..i] && init[..i + 1] == rows[..i + 1];
    } else {
      assert rows[..i] == init && rows[..i + 1] == rows;
    }
  }

  lemma {:induction false} OffsetsPart(data: Bytes, base: nat, rows: seq<Bytes>, i: nat)
    requires At(data, base, Offsets(rows)) && i <= |rows|
    ensures At(data, base + 8 * i, ToLE(|Payload(rows[..i])|, WORD))
    decreases |rows|
  {
    if i == |rows| {
      assert rows[..i] == rows;
      if rows != [] {
        AtSplit(data, base, Offsets(rows[..|rows| - 1]), ToLE(|Payload(rows)|, WORD));
      }
    } else {
      var init := rows[..|rows| - 1];
      AtSplit(data, base, Offsets(init), ToLE(|Payload(rows)|, WORD));
      OffsetsPart(data, base, init, i);
      assert init[..i] == rows[..i];
    }
  }

  lemma TableParts(section: Bytes, rows: seq<Bytes>)
    requires section == EncodeTable(rows)
    ensures At(section, 0, ToLE(|rows|, WORD)) && At(section, 8, Offsets(rows))
    ensures At(section, 8 * (|rows| + 2), Payload(rows))
  {
    AtSlice(section, 0, section);
    AtSplit(section, 0, ToLE(|rows|, WORD) + Offsets(rows), Payload(rows));
    AtSplit(section, 0, ToLE(|rows|, WORD), Offsets(rows));
  }

  lemma {:induction false} PayloadGrows(rows: seq<Bytes>, i: nat)
    requires i <= |rows|
    ensures |Payload(rows[..i])| <= |Payload(rows)|
  {
    if i < |rows| {
      PayloadGrows(rows[..|rows| - 1], i);
      assert rows[..|rows| - 1][..i] == rows[..i];
    } else {
      assert rows[..i] == rows;
    }
  }

  lemma EncodedOffset(section: Bytes, rows: seq<Bytes>, i: nat)
    requires At(section, 8, Offsets(rows)) && |Payload(rows)| < U64 && i <= |rows|
    ensures Offset(section, i) == |Payload(rows[..i])|
  {
    OffsetsPart(section, 8, rows, i);
    PayloadGrows(rows, i);
    AtWord(section, 8 + 8 * i, |Payload(rows[..i])|);
  }

  lemma EncodedRow(section: Bytes, rows: seq<Bytes>, i: nat)
    requires At(section, 8, Offsets(rows)) && At(section, 8 * (|rows| + 2), Payload(rows)) && |Payload(rows)| < U64
    requires i < |rows|
    ensures Row(section, |rows|, i) == rows[i]
  {
    EncodedOffset(section, rows, i);
    EncodedOffset(section, rows, i + 1);
    PayloadPart(section, 8 * (|rows| + 2), rows, i);
    AtIsSlice(section, 8 * (|rows| + 2) + |Payload(rows[..i])|, rows[i]);
  }

  lemma {:induction false} EncodedRises(section: Bytes, rows: seq<Bytes>, k: nat)
    requires At(section, 8, Offsets(rows)) && At(section, 8 * (|rows| + 2), Payload(rows)) && |Payload(rows)| < U64
    requires Ascending(rows, ByteOrder) && k <= |rows|
    ensures OffsetsRise(section, k + 1) && RowsRise(section, |rows|, k)
    decreases k
  {
    if k > 0 {
      EncodedRises(section, rows, k - 1);
      EncodedOffset(section, rows, k - 1);
      EncodedOffset(section, rows, k);
      PayloadPart(section, 8 * (|rows| + 2), rows, k - 1);
    }
    if k > 1 {
      EncodedRow(section, rows, k - 2);
      EncodedRow(section, rows, k - 1);
      AscendingAt(rows, k - 2, k - 1);
    }
  }

  lemma AscendingAt(rows: seq<Bytes>, i: nat, j: nat)
    requires Ascending(rows, ByteOrder) && i < j < |rows|
    ensures LexLess(rows[i], rows[j])
  {
    assert LexLess(ByteOrder(rows[i]), ByteOrder(rows[j]));
  }

  lemma TableIsRegular(section: Bytes, rows: seq<Bytes>)
    requires IsTable(section, rows)
    ensures Regular(section, |rows|)
  {
    TableParts(section, rows);
    AtWord(section, 0, |rows|);
    EncodedOffset(section, rows, 0);
    EncodedOffset(section, rows, |rows|);
    assert rows[..|rows|] == rows && rows[..0] == [];
    EncodedRises(section, rows, |rows|);
  }

  /** A section is accepted exactly when it encodes one strictly ascending list of rows. */
  lemma RegularIffTable(section: Bytes, count: nat)
    ensures Regular(section, count) <==> exists rows :: IsTable(section, rows) && |rows| == count
  {
    if Regular(section, count) {
      RegularIsTable(section, count);
    }
    if rows :| IsTable(section, rows) && |rows| == count {
      TableIsRegular(section, rows);
    }
  }

  /** The rows a section encodes are determined by it. */
  lemma TableUnique(section: Bytes, x: seq<Bytes>, y: seq<Bytes>)
    requires IsTable(section, x) && IsTable(section, y)
    ensures x == y
  {
    TableParts(section, x);
    TableParts(section, y);
    AtWord(section, 0, |x|);
    AtWord(section, 0, |y|);
    forall i | 0 <= i < |x|
      ensures x[i] == y[i]
    {
      EncodedRow(section, x, i);
      EncodedRow(section, y, i);
    }
  }
}