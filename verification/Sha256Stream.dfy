/** The streaming form of SHA-256, for any compression function: however a message is cut into
    updates, the digest is that of the padded message of section 5.1.1 of FIPS 180-4. */
module Sha256Stream {
  import opened Ordering
  import opened FixedWidth

  /** The eight 32-bit words of the chaining state. */
  type Words = seq<nat>

  const INITIAL: Words := [0x6a09_e667, 0xbb67_ae85, 0x3c6e_f372, 0xa54f_f53a,
                           0x510e_527f, 0x9b05_688c, 0x1f83_d9ab, 0x5be0_cd19]

  type Compression = (Words, Bytes) -> Words

  // ----- One-shot definition

  /** Where the length field starts in the last block. */
  const LENGTH_AT: nat := 56

  /** The number of zero bytes between the one bit and the length. */
  function Gap(length: nat): (k: nat)
    ensures k < 64
  {
    (119 - length % 64) % 64
  }

  function LengthField(length: nat): (bs: Bytes)
    ensures |bs| == 8
  {
    ToBE(8 * length % U64, 8)
  }

  function Pad(message: Bytes): Bytes
  {
    message + [0x80] + Zeros(Gap(|message|)) + LengthField(|message|)
  }

  /** The padding is the one the standard prescribes: the least whole number of blocks that
      holds the message, a one bit and the length, for every length the standard allows. */
  lemma PadIsFips(message: Bytes)
    ensures var p := Pad(message);
      && |p| % 64 == 0
      && |message| + 9 <= |p| < |message| + 9 + 64
      && At(p, 0, message) && p[|message|] == 0x80
      && (forall i | |message| < i < |p| - 8 :: p[i] == 0)
      && (8 * |message| < U64 ==> FromBE(p[|p| - 8..]) == 8 * |message|)
  {
    PaddedLength(|message|);
    ZerosAre(Gap(|message|));
    PadShape(message, Zeros(Gap(|message|)), LengthField(|message|));
    LengthFieldDecodes(|message|);
  }

  lemma LengthFieldDecodes(n: nat)
    ensures 8 * n < U64 ==> FromBE(LengthField(n)) == 8 * n
  {
    Widths();
    FromToBE(8 * n % U64, 8);
  }

  lemma PadShape(message: Bytes, gap: Bytes, length: Bytes)
    requires forall i | 0 <= i < |gap| :: gap[i] == 0
    ensures var p := message + [0x80] + gap + length;
      && At(p, 0, message) && p[|message|] == 0x80
      && (forall i | |message| < i < |p| - |length| :: p[i] == 0)
      && p[|p| - |length|..] == length
  {
    var p := message + [0x80] + gap + length;
    AtSlice(p, 0, message);
    forall i | |message| < i < |p| - |length|
      ensures p[i] == 0
    {
      assert p[i] == gap[i - |message| - 1];
    }
  }

  lemma PaddedLength(n: nat)
    ensures (n + 9 + Gap(n)) % 64 == 0
    ensures Gap(n) == if n % 64 <= 55 then 55 - n % 64 else 119 - n % 64
  {
    var r, q := n % 64, n / 64;
    assert n == 64 * q + r;
    if r <= 55 {
      assert n + 9 + (55 - r) == 64 * (q + 1);
    } else {
      assert n + 9 + (119 - r) == 64 * (q + 2);
    }
  }

  /** The 64-byte blocks of a padded message. */
  function Chunks(data: Bytes): seq<Bytes>
  {
    if |data| < 64 then [] else [data[..64]] + Chunks(data[64..])
  }

  function Fold(compress: Compression, state: Words, blocks: seq<Bytes>): Words
  {
    if blocks == [] then state
    else compress(Fold(compress, state, blocks[..|blocks| - 1]), blocks[|blocks| - 1])
  }

  function DigestOf(state: Words): Bytes
  {
    if state == [] then [] else ToBE(state[0], 4) + DigestOf(state[1..])
  }

  function Digest(compress: Compression, message: Bytes): Bytes
  {
    DigestOf(Fold(compress, INITIAL, Chunks(Pad(message))))
  }

  // ----- Blocks and their concatenation

  ghost function Joined(parts: seq<Bytes>): Bytes
  {
    if parts == [] then [] else Joined(parts[..|parts| - 1]) + parts[|parts| - 1]
  }

  lemma JoinedAppend(parts: seq<Bytes>, part: Bytes)
    ensures Joined(parts + [part]) == Joined(parts) + part
  {
    assert (parts + [part])[..|parts|] == parts;
  }

  lemma FoldAppend(compress: Compression, state: Words, blocks: seq<Bytes>, block: Bytes)
    ensures Fold(compress, state, blocks + [block]) == compress(Fold(compress, state, blocks), block)
  {
    assert (blocks + [block])[..|blocks|] == blocks;
  }

  ghost predicate AreBlocks(blocks: seq<Bytes>)
  {
    forall b | b in blocks :: |b| == 64
  }

  lemma {:induction false} JoinedLength(blocks: seq<Bytes>)
    requires AreBlocks(blocks)
    ensures |Joined(blocks)| == 64 * |blocks|
  {
    if blocks != [] { JoinedLength(blocks[..|blocks| - 1]); }
  }

  lemma {:induction false} ChunksOfJoined(blocks: seq<Bytes>)
    requires AreBlocks(blocks)
    ensures Chunks(Joined(blocks)) == blocks
  {
    if blocks != [] {
      ChunksOfJoined(blocks[..|blocks| - 1]);
      JoinedLength(blocks[..|blocks| - 1]);
      ChunksAppend(Joined(blocks[..|blocks| - 1]), blocks[|blocks| - 1]);
    }
  }

  lemma {:induction false} ChunksAppend(data: Bytes, block: Bytes)
    requires |data| % 64 == 0 && |block| == 64
    ensures Chunks(data + block) == Chunks(data) + [block]
    decreases |data|
  {
    if data == [] {
      assert data + block == block && block[..64] == block && block[64..] == [];
    } else {
      ChunksAppend(data[64..], block);
      assert (data + block)[..64] == data[..64] && (data + block)[64..] == data[64..] + block;
    }
  }

  // ----- The streaming hasher

  class Hasher {
    const compress: Compression
    var state: Words
    const block: array<byte>
    var blockLen: nat
    var bytes: nat
    /** The whole blocks compressed so far. */
    ghost var blocks: seq<Bytes>

    /** Everything absorbed so far. */
    ghost function Message(): Bytes
      requires block.Length == 64 && blockLen < 64
      reads this, block
    {
      Joined(blocks) + block[..blockLen]
    }

    ghost predicate Valid()
      reads this, block
    {
      && block.Length == 64 && blockLen < 64
      && AreBlocks(blocks)
      && state == Fold(compress, INITIAL, blocks)
      && bytes == |Message()| % U64
    }

    constructor (compress: Compression)
      ensures Valid() && Message() == [] && fresh(block) && this.compress == compress
    {
      this.compress := compress;
      state, block, blockLen, bytes, blocks := INITIAL, new byte[64](i => 0), 0, 0, [];
    }

    method Compress(whole: Bytes)
      requires |whole| == 64 && AreBlocks(blocks) && state == Fold(compress, INITIAL, blocks)
      modifies this`state, this`blocks
      ensures AreBlocks(blocks) && state == Fold(compress, INITIAL, blocks)
      ensures blocks == old(blocks) + [whole] && Joined(blocks) == old(Joined(blocks)) + whole
    {
      FoldAppend(compress, INITIAL, blocks, whole);
      JoinedAppend(blocks, whole);
      state := compress(state, whole);
      blocks := blocks + [whole];
    }

    /** Copies bytes into the block buffer. */
    method Fill(at: nat, data: Bytes)
      requires block.Length == 64 && at + |data| <= 64
      modifies block
      ensures block[..at + |data|] == old(block[..at]) + data
      ensures block[at + |data|..] == old(block[at + |data|..])
    {
      forall i | 0 <= i < |data| {
        block[at + i] := data[i];
      }
    }

    ghost predicate Compressed()
      reads this
    {
      AreBlocks(blocks) && state == Fold(compress, INITIAL, blocks)
    }

    /** Fills a partial block; once it is whole it is compressed and the rest handed back. */
    method TopUp(input: Bytes) returns (rest: Bytes)
      requires block.Length == 64 && 0 < blockLen < 64 && Compressed()
      modifies this, block
      ensures Compressed() && blockLen < 64 && bytes == old(bytes)
      ensures blockLen == 0 ==> Joined(blocks) + rest == old(Message()) + input
      ensures blockLen != 0 ==> Message() == old(Message()) + input
    {
      var take := if 64 - blockLen < |input| then 64 - blockLen else |input|;
      ghost var joined, partial, part := Joined(blocks), block[..blockLen], input[..take];
      rest := input[take..];
      assert input == part + rest;
      Concat(joined, partial, part);
      Concat(joined + partial, part, rest);
      Fill(blockLen, input[..take]);
      blockLen := blockLen + take;
      assert block[..blockLen] == partial + part;
      if blockLen == 64 {
        assert block[..64] == block[..];
        Compress(block[..]);
        blockLen := 0;
      } else {
        assert part == input;
      }
    }

    /** Compresses every whole block of the data. */
    method Absorb(input: Bytes) returns (rest: Bytes)
      requires Compressed()
      modifies this`state, this`blocks
      ensures Compressed() && |rest| < 64 && Joined(blocks) + rest == old(Joined(blocks)) + input
    {
      rest := input;
      while |rest| >= 64
        invariant Compressed()
        invariant Joined(blocks) + rest == old(Joined(blocks)) + input
      {
        ghost var joined := Joined(blocks);
        assert joined + rest == joined + rest[..64] + rest[64..];
        Compress(rest[..64]);
        rest := rest[64..];
      }
    }

    method Buffer(input: Bytes)
      requires block.Length == 64 && blockLen < 64 && Compressed()
      modifies this, block
      ensures Compressed() && blockLen < 64 && bytes == old(bytes) && Message() == old(Message()) + input
    {
      var data := input;
      if blockLen != 0 {
        data := TopUp(data);
        if blockLen != 0 {
          return;
        }
      } else {
        assert old(Message()) == Joined(blocks);
      }
      data := Absorb(data);
      Fill(0, data);
      blockLen := |data|;
      assert block[..0] + data == data;
    }

    method Update(input: Bytes)
      requires Valid()
      modifies this, block
      ensures Valid() && Message() == old(Message()) + input
    {
      CountWraps(|Message()|, |input|);
      bytes := (bytes + |input|) % U64;
      Buffer(input);
    }

    /** Zeros up to where the length goes, in the block that holds the one bit. */
    method PadShort(ghost tail: Bytes)
      requires block.Length == 64 && |tail| < 56 && block[..|tail| + 1] == tail + [0x80] && blockLen == |tail|
      modifies block
      ensures block[..56] == tail + [0x80] + Zeros(55 - |tail|)
    {
      Fill(blockLen + 1, Zeros(56 - (blockLen + 1)));
    }

    /** Zeros to the end of the block, and a block of its own for the length. */
    method PadLong(ghost tail: Bytes)
      requires block.Length == 64 && 56 <= |tail| < 64 && block[..|tail| + 1] == tail + [0x80] && blockLen == |tail|
      requires Compressed()
      modifies this`state, this`blocks, block
      ensures Compressed() && block[..56] == Zeros(LENGTH_AT)
      ensures Joined(blocks) == old(Joined(blocks)) + (tail + [0x80] + Zeros(63 - |tail|))
    {
      Fill(blockLen + 1, Zeros(64 - (blockLen + 1)));
      assert block[..64] == block[..];
      Compress(block[..]);
      Fill(0, Zeros(LENGTH_AT));
      assert block[..0] + Zeros(LENGTH_AT) == Zeros(LENGTH_AT);
    }

    /** Writes the one bit and the zeros, up to where the length goes. */
    method PadTail()
      requires block.Length == 64 && blockLen < 64 && Compressed()
      modifies this, block
      ensures Compressed() && bytes == old(bytes)
      ensures Joined(blocks) + block[..56] == old(Message()) + [0x80] + Zeros(Gap(|old(Message())|))
    {
      ghost var joined, tail := Joined(blocks), block[..blockLen];
      JoinedLength(blocks);
      Fill(blockLen, [0x80]);
      if blockLen + 1 > 56 {
        LongTail(|blocks|, joined, tail);
        PadLong(tail);
      } else {
        ShortTail(|blocks|, joined, tail);
        PadShort(tail);
      }
    }

    /** Consumes the hasher. */
    method Finish() returns (digest: Bytes)
      requires Valid()
      modifies this, block
      ensures digest == Digest(compress, old(Message()))
    {
      BitLengthWraps(|Message()|);
      PadTail();
      Fill(56, ToBE(bytes * 8 % U64, 8));
      assert block[..64] == block[..];
      Concat(Joined(blocks), block[..56], LengthField(|old(Message())|));
      Compress(block[..]);
      ChunksOfJoined(blocks);
      digest := DigestOf(state);
    }
  }

  lemma CountWraps(n: nat, k: nat)
    ensures (n % U64 + k) % U64 == (n + k) % U64
  {
  }

  lemma BitLengthWraps(n: nat)
    ensures n % U64 * 8 % U64 == 8 * n % U64
  {
    var q, r := n / U64, n % U64;
    assert 8 * n == 8 * r + U64 * (8 * q);
    WrapsAway(8 * r, 8 * q);
  }

  lemma {:induction false} WrapsAway(x: nat, k: nat)
    ensures (x + U64 * k) % U64 == x % U64
    decreases k
  {
    if k > 0 {
      WrapsAway(x, k - 1);
      assert x + U64 * k == (x + U64 * (k - 1)) + U64;
    }
  }

  /** A short tail leaves room for the length in its own block. */
  lemma ShortTail(q: nat, joined: Bytes, tail: Bytes)
    requires |joined| == 64 * q && |tail| < 56
    ensures joined + tail + [0x80] + Zeros(Gap(|joined + tail|)) == joined + (tail + [0x80] + Zeros(55 - |tail|))
  {
    TailRemainder(q, |tail|);
    PaddedLength(|joined + tail|);
    Regroup(joined, tail, Zeros(55 - |tail|));
  }

  /** A long one pushes it into a block of its own. */
  lemma LongTail(q: nat, joined: Bytes, tail: Bytes)
    requires |joined| == 64 * q && 56 <= |tail| < 64
    ensures joined + tail + [0x80] + Zeros(Gap(|joined + tail|))
         == joined + (tail + [0x80] + Zeros(63 - |tail|)) + Zeros(LENGTH_AT)
  {
    TailRemainder(q, |tail|);
    PaddedLength(|joined + tail|);
    ZerosSplit(63 - |tail|, LENGTH_AT);
    Regroup(joined, tail, Zeros(63 - |tail|));
    Concat(joined + tail + [0x80], Zeros(63 - |tail|), Zeros(LENGTH_AT));
  }

  lemma Regroup(joined: Bytes, tail: Bytes, x: Bytes)
    ensures joined + tail + [0x80] + x == joined + (tail + [0x80] + x)
  {
  }

  lemma TailRemainder(q: nat, r: nat)
    requires r < 64
    ensures (64 * q + r) % 64 == r
  {
  }

  // ----- Any cut of the message gives the same digest

  method HashParts(compress: Compression, parts: seq<Bytes>) returns (digest: Bytes)
    ensures digest == Digest(compress, Joined(parts))
  {
    var hasher := new Hasher(compress);
    for i := 0 to |parts|
      invariant hasher.Valid() && hasher.Message() == Joined(parts[..i]) && hasher.compress == compress
      invariant fresh(hasher) && fresh(hasher.block)
    {
      assert parts[..i + 1][..i] == parts[..i];
      hasher.Update(parts[i]);
    }
    assert parts[..|parts|] == parts;
    digest := hasher.Finish();
  }

  method Sha256(compress: Compression, data: Bytes) returns (digest: Bytes)
    ensures digest == Digest(compress, data)
  {
    var hasher := new Hasher(compress);
    hasher.Update(data);
    assert [] + data == data;
    digest := hasher.Finish();
  }
}
