/** Delta debugging: shrinking an input while a predicate keeps holding. */
module Minimizer {
  import opened Ordering

  type Predicate = Bytes -> bool

  /** What is left of `data` after cutting `width` bytes at `start`. */
  function Cut(data: Bytes, start: nat, width: nat): Bytes
    requires start <= |data|
  {
    data[..start] + if start + width <= |data| then data[start + width..] else []
  }

  /** `part` arises from `whole` by deleting bytes. */
  ghost predicate Subsequence(part: Bytes, whole: Bytes)
    decreases |whole|
  {
    if whole == [] then part == []
    else
      || Subsequence(part, whole[1..])
      || (part != [] && part[0] == whole[0] && Subsequence(part[1..], whole[1..]))
  }

  /** No single byte can be deleted. */
  ghost predicate OneMinimal(data: Bytes, accepts: Predicate)
  {
    forall i | 0 <= i < |data| :: !accepts(Cut(data, i, 1))
  }

  lemma {:induction false} SubsequenceSelf(data: Bytes)
    ensures Subsequence(data, data)
  {
    if data != [] { SubsequenceSelf(data[1..]); }
  }

  lemma {:induction false} SubsequenceEmpty(whole: Bytes)
    ensures Subsequence([], whole)
    decreases |whole|
  {
    if whole != [] { SubsequenceEmpty(whole[1..]); }
  }

  lemma {:induction false} SubsequenceTransitive(a: Bytes, b: Bytes, c: Bytes)
    requires Subsequence(a, b) && Subsequence(b, c)
    ensures Subsequence(a, c)
    decreases |c|
  {
    if c != [] {
      if Subsequence(b, c[1..]) {
        SubsequenceTransitive(a, b, c[1..]);
      } else if Subsequence(a, b[1..]) {
        SubsequenceTransitive(a, b[1..], c[1..]);
      } else {
        SubsequenceTransitive(a[1..], b[1..], c[1..]);
      }
    }
  }

  lemma {:induction false} CutIsSubsequence(data: Bytes, start: nat, width: nat)
    requires start <= |data|
    ensures Subsequence(Cut(data, start, width), data)
    decreases |data|
  {
    var cut := Cut(data, start, width);
    if data == [] {
    } else if start > 0 {
      CutIsSubsequence(data[1..], start - 1, width);
      assert cut[1..] == Cut(data[1..], start - 1, width);
    } else if width > 0 {
      CutIsSubsequence(data[1..], 0, width - 1);
      assert cut == Cut(data[1..], 0, width - 1);
    } else {
      assert cut == data;
      SubsequenceSelf(data);
    }
  }

  /** The minimizer.  Its result keeps the predicate and arises by deletions.  It is 1-minimal
      unless it is a single byte that could also go. */
  method Minimize(data: Bytes, accepts: Predicate) returns (result: Option<Bytes>)
    ensures result.None? <==> !accepts(data)
    ensures result.Some? ==> accepts(result.value) && Subsequence(result.value, data)
    ensures result.Some? ==> (OneMinimal(result.value, accepts) <==> |result.value| != 1 || !accepts([]))
    ensures result.Some? && data != [] ==> result.value != []
    ensures result.Some? && |data| < 2 ==> result.value == data
  {
    if !accepts(data) {
      return None;
    }
    var current, granularity := data, 2;
    SubsequenceSelf(data);
    while |current| >= 2
      invariant accepts(current) && Subsequence(current, data)
      invariant granularity >= 2 && (data != [] ==> current != []) && (|data| < 2 ==> current == data)
      decreases |current|, |current| - granularity
    {
      var width := Width(|current|, granularity);
      var start := Reduction(current, width, accepts);
      if start.Some? {
        CutIsSubsequence(current, start.value, width);
        SubsequenceTransitive(Cut(current, start.value, width), current, data);
        current := Cut(current, start.value, width);
        granularity := if granularity - 1 > 2 then granularity - 1 else 2;
      } else {
        if granularity >= |current| {
          assert OneMinimal(current, accepts);
          break;
        }
        granularity := if granularity * 2 < |current| then granularity * 2 else |current|;
      }
    }
    if |current| == 1 {
      assert Cut(current, 0, 1) == [];
    }
    return Some(current);
  }

  /** The chunk width of a round: never zero, never the whole input, one at full granularity. */
  function Width(length: nat, granularity: nat): (width: nat)
    requires length >= 2 && granularity >= 2
    ensures 1 <= width < length
    ensures granularity >= length ==> width == 1
  {
    WidthBounds(length, granularity);
    var width := (length + granularity - 1) / granularity;
    if width > 1 then width else 1
  }

  lemma WidthBounds(length: nat, granularity: nat)
    requires length >= 2 && granularity >= 2
    ensures 1 <= (length + granularity - 1) / granularity < length
    ensures granularity >= length ==> (length + granularity - 1) / granularity == 1
  {
    var n := length + granularity - 1;
    var q := n / granularity;
    assert granularity * q <= n < granularity * (q + 1);
    assert granularity * length - n == (granularity - 1) * (length - 1);
    assert (granularity - 1) * (length - 1) >= 1;
    Cancel(granularity, q, length);
    Cancel(granularity, 0, q + 1);
    if granularity >= length {
      Cancel(granularity, q, 2);
    }
    assert granularity * 1 <= n;
    Cancel(granularity, 1, q + 1);
  }

  lemma Cancel(d: nat, a: int, b: int)
    requires d > 0 && d * a < d * b
    ensures a < b
  {
  }

  /** No chunk that starts before `end` can go. */
  ghost predicate NoneGoes(current: Bytes, width: nat, accepts: Predicate, end: nat)
    requires width > 0
  {
    forall i: nat | i < end && i < |current| && i % width == 0 :: !accepts(Cut(current, i, width))
  }

  lemma NextChunk(at: nat, width: nat, i: nat)
    requires width > 0 && at % width == 0 && at <= i < at + width
    ensures i % width == 0 <==> i == at
    ensures (at + width) % width == 0
  {
    var k, j := at / width, i / width;
    assert at == width * k && at + width == width * (k + 1);
    assert i % width == 0 ==> i == width * j;
    if i % width == 0 {
      Cancel(width, j, k + 1);
      Cancel(width, k, j + 1);
    }
    Multiple(width, k + 1);
  }

  lemma Multiple(width: nat, k: nat)
    requires width > 0
    ensures width * k % width == 0
  {
    var q, r := width * k / width, width * k % width;
    assert width * (k - q) == r;
    if r > 0 {
      Cancel(width, 0, k - q);
      Cancel(width, k - q, 1);
    }
  }

  /** One round: the first chunk whose removal keeps the predicate. */
  method Reduction(current: Bytes, width: nat, accepts: Predicate) returns (start: Option<nat>)
    requires 1 <= width
    ensures start.Some? ==> start.value < |current| && start.value % width == 0
    ensures start.Some? ==> accepts(Cut(current, start.value, width)) && NoneGoes(current, width, accepts, start.value)
    ensures start.None? ==> NoneGoes(current, width, accepts, |current|)
    ensures start.None? && width == 1 ==> OneMinimal(current, accepts)
  {
    var at := 0;
    while at < |current|
      invariant at % width == 0 && NoneGoes(current, width, accepts, at)
    {
      if accepts(Cut(current, at, width)) {
        return Some(at);
      }
      forall i: nat | i < at + width && i < |current| && i % width == 0
        ensures !accepts(Cut(current, i, width))
      {
        if i >= at {
          NextChunk(at, width, i);
        }
      }
      NextChunk(at, width, at);
      at := at + width;
    }
    return None;
  }

  /** The advertised 1-minimality holds of every accepted input exactly when the predicate does
      not accept both the empty string and some single byte. */
  ghost predicate Tame(accepts: Predicate)
  {
    !(accepts([]) && exists b: byte :: accepts([b]))
  }

  method MinimizeTame(data: Bytes, accepts: Predicate) returns (result: Option<Bytes>)
    requires Tame(accepts)
    ensures result.None? <==> !accepts(data)
    ensures result.Some? ==> accepts(result.value) && OneMinimal(result.value, accepts)
  {
    result := Minimize(data, accepts);
    if result.Some? && |result.value| == 1 {
      assert result.value == [result.value[0]];
    }
  }

  /** For any other predicate there is an accepted byte that comes back although it could go. */
  method MinimizeUntame(accepts: Predicate, b: byte) returns (result: Option<Bytes>)
    requires accepts([]) && accepts([b])
    ensures result == Some([b]) && !OneMinimal([b], accepts)
  {
    result := Minimize([b], accepts);
  }
}
