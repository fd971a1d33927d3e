/** Machine words of a fixed number of bytes, in both byte orders. */
module FixedWidth {
  import opened Ordering

  function Zeros(n: nat): (bs: Bytes)
    ensures |bs| == n
  {
    if n == 0 then [] else [0] + Zeros(n - 1)
  }

  lemma {:induction false} ZerosAre(n: nat)
    ensures forall i | 0 <= i < n :: Zeros(n)[i] == 0
  {
    if n > 0 {
      ZerosAre(n - 1);
    }
  }

  lemma {:induction false} ZerosSplit(m: nat, n: nat)
    ensures Zeros(m + n) == Zeros(m) + Zeros(n)
  {
    if m > 0 {
      ZerosSplit(m - 1, n);
    }
  }

  function Pow256(k: nat): nat
  {
    if k == 0 then 1 else 256 * Pow256(k - 1)
  }

  function FromLE(bs: Bytes): nat
  {
    if bs == [] then 0 else bs[0] + 256 * FromLE(bs[1..])
  }

  /** The low `width` bytes of the number. */
  function ToLE(n: nat, width: nat): (bs: Bytes)
    ensures |bs| == width
    decreases width, n
  {
    if width == 0 then [] else [n % 256] + ToLE(n / 256, width - 1)
  }

  /** The number without its k lowest bytes. */
  function Shifted(n: nat, k: nat): nat
    decreases k
  {
    if k == 0 then n else Shifted(n / 256, k - 1)
  }

  /** The lowest byte comes first. */
  lemma {:induction false} LowestFirst(n: nat, width: nat, i: nat)
    requires i < width
    ensures ToLE(n, width)[i] == Shifted(n, i) % 256
    decreases i
  {
    if i > 0 {
      LowestFirst(n / 256, width - 1, i - 1);
    }
  }

  lemma {:induction false} FromToLE(n: nat, width: nat)
    requires n < Pow256(width)
    ensures FromLE(ToLE(n, width)) == n
  {
    if width > 0 {
      FromToLE(n / 256, width - 1);
    }
  }

  lemma {:induction false} ToFromLE(bs: Bytes)
    ensures FromLE(bs) < Pow256(|bs|)
    ensures ToLE(FromLE(bs), |bs|) == bs
  {
    if bs != [] {
      ToFromLE(bs[1..]);
      assert FromLE(bs) % 256 == bs[0] && FromLE(bs) / 256 == FromLE(bs[1..]);
    }
  }

  /** The word of some width at a place, least significant byte first. */
  function LEAt(data: Bytes, at: nat, width: nat): nat
    decreases width, |data|
  {
    if width == 0 || at >= |data| then 0 else data[at] + 256 * LEAt(data, at + 1, width - 1)
  }

  lemma {:induction false} LEAtDenotes(data: Bytes, at: nat, n: nat, width: nat)
    requires At(data, at, ToLE(n, width)) && n < Pow256(width)
    ensures LEAt(data, at, width) == n
    decreases width
  {
    if width > 0 {
      assert ToLE(n, width)[1..] == ToLE(n / 256, width - 1);
      LEAtDenotes(data, at + 1, n / 256, width - 1);
    }
  }

  lemma {:induction false} AtLE(data: Bytes, at: nat, width: nat)
    requires at + width <= |data|
    ensures At(data, at, ToLE(LEAt(data, at, width), width)) && LEAt(data, at, width) < Pow256(width)
    decreases width
  {
    if width > 0 {
      var n, rest := LEAt(data, at, width), LEAt(data, at + 1, width - 1);
      AtLE(data, at + 1, width - 1);
      assert n % 256 == data[at] && n / 256 == rest;
      assert ToLE(n, width)[1..] == ToLE(rest, width - 1);
    }
  }

  lemma {:induction false} LEAtBound(data: Bytes, at: nat, width: nat)
    ensures LEAt(data, at, width) < Pow256(width)
    decreases width
  {
    if width > 0 {
      LEAtBound(data, at + 1, width - 1);
    }
  }

  lemma Widths()
    ensures Pow256(2) == 0x1_0000
    ensures Pow256(4) == 0x1_0000_0000
    ensures Pow256(8) == 0x1_0000_0000_0000_0000
  {
    assert Pow256(4) == 256 * 256 * Pow256(2);
    assert Pow256(6) == 256 * 256 * Pow256(4);
  }

  /** Big-endian words of a fixed number of bytes. */
  function ToBE(n: nat, width: nat): (bs: Bytes)
    ensures |bs| == width
    decreases width, n
  {
    if width == 0 then [] else ToBE(n / 256, width - 1) + [n % 256]
  }

  function FromBE(bs: Bytes): nat
  {
    if bs == [] then 0 else 256 * FromBE(bs[..|bs| - 1]) + bs[|bs| - 1]
  }

  /** The lowest byte comes last. */
  lemma {:induction false} LowestLast(n: nat, width: nat, i: nat)
    requires i < width
    ensures ToBE(n, width)[width - 1 - i] == Shifted(n, i) % 256
    decreases i
  {
    if i > 0 {
      LowestLast(n / 256, width - 1, i - 1);
    }
  }

  lemma {:induction false} FromToBE(n: nat, width: nat)
    requires n < Pow256(width)
    ensures FromBE(ToBE(n, width)) == n
  {
    if width > 0 {
      FromToBE(n / 256, width - 1);
      assert ToBE(n, width)[..width - 1] == ToBE(n / 256, width - 1);
    }
  }
}
