/** Unsigned LEB128 integers: the two encoders of the canonical model (machine words and
    arbitrary decimal strings) and the bounded reader of the closure evidence. */
module Varint {
  import opened Ordering

  // ----- The format, as defined in section 7.6 of DWARF 5

  /** The encoding: seven bits a byte, least significant first, high bit on all but the last. */
  function Leb(n: nat): (r: Bytes)
    ensures |r| > 0
  {
    if n < 128 then [n] else [128 + n % 128] + Leb(n / 128)
  }

  /** One complete varint, minimal or not. */
  predicate IsVarint(bs: Bytes)
  {
    bs != [] && if |bs| == 1 then bs[0] < 128 else bs[0] >= 128 && IsVarint(bs[1..])
  }

  /** The number a byte string denotes, read independently of any encoder. */
  function LebValue(bs: Bytes): nat
  {
    if bs == [] then 0 else bs[0] % 128 + 128 * LebValue(bs[1..])
  }

  lemma {:induction false} LebDenotes(n: nat)
    ensures IsVarint(Leb(n)) && LebValue(Leb(n)) == n
  {
    if n >= 128 {
      LebDenotes(n / 128);
      assert Leb(n)[1..] == Leb(n / 128);
    }
  }

  /** `Leb` is the unique shortest varint of its number. */
  lemma {:induction false} LebMinimal(bs: Bytes)
    requires IsVarint(bs)
    ensures |Leb(LebValue(bs))| <= |bs|
    ensures |Leb(LebValue(bs))| == |bs| <==> bs == Leb(LebValue(bs))
    ensures bs == Leb(LebValue(bs)) <==> |bs| == 1 || bs[|bs| - 1] != 0
  {
    var n := LebValue(bs);
    if |bs| == 1 {
      assert LebValue(bs[1..]) == 0 && bs == [n];
    } else {
      LebMinimal(bs[1..]);
      assert n / 128 == LebValue(bs[1..]) && n % 128 == bs[0] % 128;
      assert bs == [bs[0]] + bs[1..];
      if n >= 128 {
        assert Leb(n) == [bs[0]] + Leb(n / 128);
      } else {
        assert |Leb(n)| == 1;
        assert Leb(LebValue(bs[1..])) == [0];
      }
    }
  }

  lemma LebHead(n: nat, x: Bytes)
    ensures var s := Leb(n) + x;
      && s != [] && s[0] == (if n < 128 then n else 128 + n % 128)
      && s[1..] == if n < 128 then x else Leb(n / 128) + x
  {
    if n < 128 {
      assert Leb(n) == [n];
    } else {
      assert Leb(n) == [128 + n % 128] + Leb(n / 128);
    }
  }

  lemma {:induction false} LebPrefixFree(a: nat, b: nat, x: Bytes, y: Bytes)
    requires Leb(a) + x == Leb(b) + y
    ensures a == b && x == y
  {
    LebHead(a, x);
    LebHead(b, y);
    if a >= 128 {
      LebPrefixFree(a / 128, b / 128, x, y);
    }
  }

  function Pow128(k: nat): nat
  {
    if k == 0 then 1 else 128 * Pow128(k - 1)
  }

  lemma {:induction false} LebLength(n: nat, k: nat)
    requires k > 0
    ensures |Leb(n)| <= k <==> n < Pow128(k)
  {
    if k == 1 {
      assert Pow128(1) == 128;
    } else if n >= 128 {
      LebLength(n / 128, k - 1);
    } else {
      PowPositive(k - 1);
    }
  }

  lemma {:induction false} PowPositive(k: nat)
    ensures Pow128(k) >= 1
  {
    if k > 0 { PowPositive(k - 1); }
  }

  lemma PowConstants()
    ensures Pow128(9) == 0x8000_0000_0000_0000
    ensures Pow128(10) == 0x40_0000_0000_0000_0000
  {
    assert Pow128(2) == 128 * 128;
    assert Pow128(4) == 128 * 128 * 128 * 128;
    assert Pow128(6) == 128 * 128 * Pow128(4);
    assert Pow128(8) == 128 * 128 * Pow128(6);
  }

  // ----- Writing a machine word

  method EncodeU64(number: nat, output: Bytes) returns (result: Bytes)
    requires number < U64
    ensures result == output + Leb(number)
  {
    var value := number;
    result := output;
    while true
      invariant result + Leb(value) == output + Leb(number)
      decreases value
    {
      var byte := value % 128;
      var rest := value / 128;
      if rest == 0 {
        result := result + [byte];
        break;
      }
      ghost var before := result;
      result := result + [byte + 128];
      assert before + Leb(value) == result + Leb(rest);
      value := rest;
    }
  }

  // ----- Writing an arbitrary decimal

  type digit = x: int | 0 <= x < 10

  /** The number a decimal string denotes, most significant digit first. */
  function DecValue(ds: seq<digit>): nat
  {
    if ds == [] then 0 else 10 * DecValue(ds[..|ds| - 1]) + ds[|ds| - 1]
  }

  /** The decimal digits of a number, most significant first, without leading zeros. */
  function Digits(n: nat): (ds: seq<digit>)
    ensures ds != []
  {
    if n < 10 then [n] else Digits(n / 10) + [n % 10]
  }

  lemma {:induction false} DigitsDenote(n: nat)
    ensures DecValue(Digits(n)) == n
  {
    if n < 10 {
      assert [n][..0] == [] && DecValue([]) == 0;
    } else {
      DigitsDenote(n / 10);
      assert Digits(n)[..|Digits(n)| - 1] == Digits(n / 10);
    }
  }

  /** The base-128 digits of a positive number, least significant first. */
  function Groups(n: nat): Bytes
  {
    if n == 0 then [] else [n % 128] + Groups(n / 128)
  }

  function Continued(groups: Bytes): Bytes
    requires forall i | 0 <= i < |groups| :: groups[i] < 128
  {
    if |groups| <= 1 then groups else [groups[0] + 128] + Continued(groups[1..])
  }

  lemma {:induction false} GroupsSmall(n: nat)
    ensures forall i | 0 <= i < |Groups(n)| :: Groups(n)[i] < 128
    ensures n > 0 ==> |Groups(n)| > 0 && Groups(n)[0] == n % 128 && Groups(n)[1..] == Groups(n / 128)
  {
    if n > 0 {
      GroupsSmall(n / 128);
    }
  }

  lemma {:induction false} GroupsContinued(n: nat)
    requires n > 0
    ensures forall i | 0 <= i < |Groups(n)| :: Groups(n)[i] < 128
    ensures Continued(Groups(n)) == Leb(n)
  {
    GroupsSmall(n);
    if n >= 128 {
      GroupsSmall(n / 128);
      GroupsContinued(n / 128);
    } else {
      assert Groups(n) == [n];
    }
  }

  lemma GroupsStep(before: Bytes, n: nat)
    requires n > 0
    ensures before + Groups(n) == before + [n % 128] + Groups(n / 128)
  {
  }

  lemma {:induction false} LeadingZeros(ds: seq<digit>, k: nat)
    requires k <= |ds| && forall i | 0 <= i < k :: ds[i] == 0
    ensures DecValue(ds) == DecValue(ds[k..])
  {
    if k < |ds| {
      LeadingZeros(ds[..|ds| - 1], k);
      assert ds[k..][..|ds| - k - 1] == ds[..|ds| - 1][k..];
    } else if k > 0 {
      LeadingZeros(ds[..|ds| - 1], k - 1);
      assert DecValue(ds[..|ds| - 1][k - 1..]) == 0;
    } else {
      assert ds[k..] == ds;
    }
  }

  lemma {:induction false} LeadingDigit(ds: seq<digit>)
    requires ds != [] && ds[0] != 0
    ensures DecValue(ds) > 0
  {
    if |ds| > 1 { LeadingDigit(ds[..|ds| - 1]); }
  }

  /** One in-place long division of the digit buffer by 128, scanning from the front. */
  method DivideBy128(digits: seq<digit>) returns (quotient: seq<digit>, carry: nat, firstNonzero: Option<nat>)
    ensures |quotient| == |digits| && carry < 128
    ensures DecValue(digits) == 128 * DecValue(quotient) + carry
    ensures firstNonzero.None? ==> forall i | 0 <= i < |quotient| :: quotient[i] == 0
    ensures firstNonzero.Some? ==> firstNonzero.value < |quotient| && quotient[firstNonzero.value] != 0
    ensures firstNonzero.Some? ==> forall i | 0 <= i < firstNonzero.value :: quotient[i] == 0
  {
    quotient, carry, firstNonzero := digits, 0, None;
    for index := 0 to |digits|
      invariant |quotient| == |digits| && carry < 128
      invariant quotient[index..] == digits[index..]
      invariant DecValue(digits[..index]) == 128 * DecValue(quotient[..index]) + carry
      invariant firstNonzero.None? ==> forall i | 0 <= i < index :: quotient[i] == 0
      invariant firstNonzero.Some? ==> firstNonzero.value < index && quotient[firstNonzero.value] != 0
      invariant firstNonzero.Some? ==> forall i | 0 <= i < firstNonzero.value :: quotient[i] == 0
    {
      assert quotient[index] == quotient[index..][0] == digits[index];
      var selected := carry * 10 + quotient[index];
      ghost var before := quotient;
      quotient := quotient[index := selected / 128];
      carry := selected % 128;
      if firstNonzero.None? && quotient[index] != 0 {
        firstNonzero := Some(index);
      }
      assert digits[..index + 1][..index] == digits[..index];
      assert quotient[..index + 1][..index] == before[..index];
      assert quotient[index + 1..] == before[index..][1..];
    }
    assert digits[..|digits|] == digits && quotient[..|digits|] == quotient;
  }

  /** The repeated division: base-128 groups of the number, least significant first, with one
      zero group for zero and none for the empty string. */
  method DecimalGroups(value: seq<digit>) returns (encoded: Bytes)
    ensures encoded == if value != [] && DecValue(value) == 0 then [0] else Groups(DecValue(value))
  {
    var digits := value;
    encoded := [];
    ghost var v := DecValue(value);
    while digits != []
      invariant v > 0 ==> encoded + Groups(DecValue(digits)) == Groups(v)
      invariant v > 0 && digits != [] ==> DecValue(digits) > 0
      invariant v == 0 ==> (digits == value && encoded == []) || (value != [] && digits == [] && encoded == [0])
      decreases DecValue(digits), |digits|
    {
      var quotient, carry, firstNonzero := DivideBy128(digits);
      ghost var d, before := DecValue(digits), encoded;
      encoded := encoded + [carry];
      match firstNonzero {
        case Some(index) =>
          LeadingZeros(quotient, index);
          LeadingDigit(quotient[index..]);
          digits := quotient[index..];
        case None =>
          LeadingZeros(quotient, |quotient|);
          digits := [];
      }
      assert d / 128 == DecValue(digits) && d % 128 == carry;
      if d > 0 { GroupsStep(before, d); }
    }
    assert encoded + Groups(0) == encoded;
  }

  /** The encoder of arbitrary nonnegative decimals.  The empty string emits nothing. */
  method EncodeDecimal(value: seq<digit>, output: Bytes) returns (result: Bytes)
    ensures result == output + if value == [] then [] else Leb(DecValue(value))
  {
    if value == [0] {
      return output + [0];
    }
    var encoded := DecimalGroups(value);
    if DecValue(value) > 0 {
      GroupsContinued(DecValue(value));
    }
    result := AppendContinued(encoded, output);
  }

  method AppendContinued(encoded: Bytes, output: Bytes) returns (result: Bytes)
    requires forall i | 0 <= i < |encoded| :: encoded[i] < 128
    ensures result == output + Continued(encoded)
  {
    result := output;
    for index := 0 to |encoded|
      invariant result + Continued(encoded[index..]) == output + Continued(encoded)
    {
      var byte := encoded[index];
      assert encoded[index..][1..] == encoded[index + 1..];
      result := result + [byte + if index == |encoded| - 1 then 0 else 128];
    }
    assert result + Continued([]) == result;
  }

  // ----- The bounded reader

  datatype ReadError = Truncated | ExceedsU64

  datatype Reading = Number(number: nat, end: nat) | Unreadable(error: ReadError)

  /** The varint at `offset` and the index just past it, looking at no more than `budget` bytes. */
  function ReadNumber(data: Bytes, offset: nat, budget: nat): (r: Reading)
    ensures r.Number? ==> offset < r.end <= |data|
    decreases budget, data
  {
    if budget == 0 then Unreadable(ExceedsU64)
    else if offset >= |data| then Unreadable(Truncated)
    else if data[offset] < 128 then Number(data[offset], offset + 1)
    else
      var rest := ReadNumber(data, offset + 1, budget - 1);
      if rest.Unreadable? then rest else Number(data[offset] % 128 + 128 * rest.number, rest.end)
  }

  /** What the reader returns: the number modulo 2^64 and the following offset. */
  function ReadVarint(data: Bytes, offset: nat): (r: Reading)
    ensures r.Number? ==> r.number < U64 && offset < r.end <= |data|
  {
    var r := ReadNumber(data, offset, 10);
    if r.Unreadable? then r else Number(r.number % U64, r.end)
  }

  lemma {:induction false} ReadNumberDenotes(data: Bytes, offset: nat, budget: nat)
    requires ReadNumber(data, offset, budget).Number?
    ensures var r := ReadNumber(data, offset, budget);
      r.end <= offset + budget && IsVarint(data[offset..r.end]) && r.number == LebValue(data[offset..r.end])
    decreases budget
  {
    var end := ReadNumber(data, offset, budget).end;
    if data[offset] >= 128 {
      ReadNumberDenotes(data, offset + 1, budget - 1);
      assert data[offset..end][1..] == data[offset + 1..end];
    } else {
      assert data[offset..end] == [data[offset]] && LebValue([]) == 0;
    }
  }

  predicate SameEnd(a: Reading, b: Reading)
  {
    if a.Unreadable? then a == b else b.Number? && a.end == b.end
  }

  lemma {:induction false} LebValueAppend(bs: Bytes, b: byte)
    ensures LebValue(bs + [b]) == LebValue(bs) + Pow128(|bs|) * (b % 128)
    ensures LebValue(bs) < Pow128(|bs|)
  {
    if bs == [] {
      assert LebValue([b]) == b % 128 + 128 * LebValue([]);
    } else {
      LebValueAppend(bs[1..], b);
      assert (bs + [b])[1..] == bs[1..] + [b];
      var p := Pow128(|bs| - 1);
      assert Pow128(|bs|) == 128 * p;
      assert 128 * (p * (b % 128)) == (128 * p) * (b % 128);
    }
  }

  // ----- Bitwise or

  /** The bitwise or of two numbers, bit by bit. */
  function Or(x: nat, y: nat): nat
    decreases x + y
  {
    if x == 0 || y == 0 then x + y
    else (if x % 2 == 1 || y % 2 == 1 then 1 else 0) + 2 * Or(x / 2, y / 2)
  }

  function Pow2(k: nat): (p: nat)
    ensures p > 0
  {
    if k == 0 then 1 else 2 * Pow2(k - 1)
  }

  lemma {:induction false} Pow2Septets(k: nat)
    ensures Pow128(k) == Pow2(7 * k)
  {
    if k > 0 {
      Pow2Septets(k - 1);
      Pow2Seven(7 * (k - 1));
    }
  }

  lemma Pow2Seven(k: nat)
    ensures Pow2(k + 7) == 128 * Pow2(k)
  {
    assert Pow2(k + 2) == 4 * Pow2(k);
    assert Pow2(k + 4) == 4 * Pow2(k + 2);
    assert Pow2(k + 6) == 4 * Pow2(k + 4);
  }

  /** The lowest bits of the number are clear. */
  predicate LowClear(k: nat, n: nat)
  {
    k == 0 || (n % 2 == 0 && LowClear(k - 1, n / 2))
  }

  lemma {:induction false} MultipleClear(m: nat, k: nat)
    ensures LowClear(k, m * Pow2(k))
  {
    if k > 0 {
      MultipleClear(m, k - 1);
      Doubled(m, Pow2(k - 1));
    }
  }

  lemma Doubled(m: nat, p: nat)
    ensures m * (2 * p) == 2 * (m * p)
  {
  }

  /** Where the upper number leaves the bits of the lower one clear, or is sum. */
  lemma {:induction false} OrIsSum(low: nat, high: nat, k: nat)
    requires low < Pow2(k) && LowClear(k, high)
    ensures Or(low, high) == low + high
    decreases k
  {
    if k > 0 {
      OrIsSum(low / 2, high / 2, k - 1);
    }
  }

  lemma PayloadOr(k: nat, low: nat, b: byte)
    requires k <= 9 && low < Pow128(k)
    ensures Or(low, b % 128 * Pow128(k) % U64) == low + b % 128 * Pow128(k) % U64
  {
    PowConstants();
    Pow2Septets(k);
    if k <= 8 {
      PowMonotone(k + 1, 9);
      FittingPayload(b % 128, low, Pow128(k));
      MultipleClear(b % 128, 7 * k);
      OrIsSum(low, b % 128 * Pow128(k), 7 * k);
    } else {
      var p: nat := b % 128;
      assert p * 0x8000_0000_0000_0000 % U64 == p % 2 * 0x8000_0000_0000_0000 by { assert p == 2 * (p / 2) + p % 2; }
      MultipleClear(p % 2, 7 * k);
      OrIsSum(low, p % 2 * Pow128(k), 7 * k);
    }
  }

  /** The byte loop of the reader: an or of shifted payloads that loses the bits shifted out
      of the word. */
  method ReadVarintLoop(data: Bytes, start: nat) returns (r: Reading)
    ensures r == ReadVarint(data, start)
  {
    var offset, value, scale, shift := start, 0, 1, 0;
    while true
      invariant start <= offset && shift == 7 * (offset - start) <= 63
      invariant offset <= |data| || offset == start
      invariant value == if offset > start then LebValue(data[start..offset]) else 0
      invariant scale == Pow128(offset - start)
      invariant SameEnd(ReadNumber(data, start, 10), ReadNumber(data, offset, 10 - (offset - start)))
      decreases 63 - shift
    {
      if offset >= |data| {
        return Unreadable(Truncated);
      }
      var byte := data[offset];
      AccumulatePayload(data[start..offset], value, byte);
      assert data[start..offset + 1] == data[start..offset] + [byte];
      offset := offset + 1;
      value := Or(value, (byte % 128) * scale % U64);
      if byte < 128 {
        ReadNumberDenotes(data, start, 10);
        return Number(value, offset);
      }
      shift := shift + 7;
      if shift > 63 {
        assert ReadNumber(data, offset, 0) == Unreadable(ExceedsU64);
        return Unreadable(ExceedsU64);
      }
      scale := scale * 128;
    }
  }

  lemma AccumulatePayload(read: Bytes, value: nat, b: byte)
    requires |read| <= 9 && value == LebValue(read)
    ensures |read| <= 8 ==> Or(value, b % 128 * Pow128(|read|) % U64) == LebValue(read + [b])
    ensures Or(value, b % 128 * Pow128(|read|) % U64) == LebValue(read + [b]) % U64
  {
    LebValueAppend(read, b);
    OrPayload(|read|, value, b);
  }

  lemma OrPayload(k: nat, low: nat, b: byte)
    requires k <= 9 && low < Pow128(k)
    ensures k <= 8 ==> Or(low, b % 128 * Pow128(k) % U64) == low + Pow128(k) * (b % 128)
    ensures Or(low, b % 128 * Pow128(k) % U64) == (low + Pow128(k) * (b % 128)) % U64
  {
    PayloadOr(k, low, b);
    ShiftedPayload(k, low, b);
  }

  lemma {:induction false} PowMonotone(k: nat, m: nat)
    requires k <= m
    ensures Pow128(k) <= Pow128(m)
  {
    if k < m { PowMonotone(k, m - 1); }
  }

  /** Shifting a payload truncates only at the tenth byte, where one bit survives. */
  lemma ShiftedPayload(k: nat, low: nat, b: byte)
    requires k <= 9 && low < Pow128(k)
    ensures k <= 8 ==> low + b % 128 * Pow128(k) % U64 == low + Pow128(k) * (b % 128)
    ensures low + b % 128 * Pow128(k) % U64 == (low + Pow128(k) * (b % 128)) % U64
  {
    PowConstants();
    if k <= 8 {
      PowMonotone(k + 1, 9);
      FittingPayload(b % 128, low, Pow128(k));
    } else {
      TenthPayload(b % 128, low);
    }
  }

  lemma FittingPayload(p: nat, low: nat, scale: nat)
    requires p < 128 && low < scale && 128 * scale <= 0x8000_0000_0000_0000
    ensures low + p * scale % U64 == low + scale * p == (low + scale * p) % U64
  {
    assert p * scale == scale * p && scale * p <= scale * 127;
  }

  lemma TenthPayload(p: nat, low: nat)
    requires p < 128 && low < 0x8000_0000_0000_0000
    ensures low + p * 0x8000_0000_0000_0000 % U64 == (low + 0x8000_0000_0000_0000 * p) % U64
  {
    assert p == 2 * (p / 2) + p % 2;
  }

  /** Wherever it finds a `Leb` the reader undoes it exactly when at most ten bytes were
      written, that is below 2^70, and it returns the number itself exactly below 2^64. */
  lemma ReadUndoesLeb(data: Bytes, offset: nat, n: nat)
    requires At(data, offset, Leb(n))
    ensures ReadVarint(data, offset) == if n < 0x40_0000_0000_0000_0000
                                        then Number(n % U64, offset + |Leb(n)|) else Unreadable(ExceedsU64)
  {
    NumberOfLeb(data, offset, n, 10);
    LebLength(n, 10);
    PowConstants();
  }

  lemma ReadUndoesWord(data: Bytes, offset: nat, n: nat)
    requires n < U64 && At(data, offset, Leb(n))
    ensures ReadVarint(data, offset) == Number(n, offset + |Leb(n)|)
  {
    ReadUndoesLeb(data, offset, n);
  }

  lemma {:induction false} NumberOfLeb(data: Bytes, offset: nat, n: nat, budget: nat)
    requires At(data, offset, Leb(n))
    ensures ReadNumber(data, offset, budget)
         == if |Leb(n)| <= budget then Number(n, offset + |Leb(n)|) else Unreadable(ExceedsU64)
    decreases budget
  {
    if budget > 0 && n >= 128 {
      AtSplit(data, offset, [128 + n % 128], Leb(n / 128));
      NumberOfLeb(data, offset + 1, n / 128, budget - 1);
    }
  }

  /** The reader looks at no byte past the end it reports. */
  lemma {:induction false} ReadNumberLocal(data: Bytes, other: Bytes, offset: nat, budget: nat)
    requires ReadNumber(data, offset, budget).Number?
    requires var end := ReadNumber(data, offset, budget).end;
      end <= |other| && data[..end] == other[..end]
    ensures ReadNumber(other, offset, budget) == ReadNumber(data, offset, budget)
    decreases budget
  {
    var end := ReadNumber(data, offset, budget).end;
    assert data[offset] == data[..end][offset] == other[..end][offset];
    if data[offset] >= 128 {
      ReadNumberLocal(data, other, offset + 1, budget - 1);
    }
  }

  lemma ReadVarintLocal(data: Bytes, other: Bytes, offset: nat)
    requires ReadVarint(data, offset).Number?
    requires var end := ReadVarint(data, offset).end;
      end <= |other| && data[..end] == other[..end]
    ensures ReadVarint(other, offset) == ReadVarint(data, offset)
  {
    ReadNumberLocal(data, other, offset, 10);
  }
}
