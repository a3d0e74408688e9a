/**
 * MurmurHash3_x86_128, the algorithm of `Murmur128ManagedX86` and
 * `Murmur128UnmanagedX86`. Four `uint`
 * accumulators `H1`..`H4` start at the seed; `Body` mixes every 16-byte block,
 * read as four little-endian keys, into them, and `Tail` XORs the scrambled
 * keys of the 1 to 15 leftover bytes in. `HashFinal` folds in the length,
 * cross-adds the accumulators, applies fmix32 to each, cross-adds again and
 * writes `H1`..`H4` out little-endian.
 *
 * The functions say what both engines compute on values; each engine's class
 * does it in place, field by field, and is proved to compute these functions.
 */
module Murmur128X86 {
  import opened Primitives
  import opened BlockFold
  import Murmur128

  // The key constants `c1 = 0x239b961b`, `c2 = 0xab0e9789`, `c3 = 0x38b34ae5`
  // and `c4 = 0xa1e38b93`, as multiplications, with their inverses modulo 2^32.

  function MulC1(x: bv32): bv32 { x * 0x239b961b }
  function MulC2(x: bv32): bv32 { x * 0xab0e9789 }
  function MulC3(x: bv32): bv32 { x * 0x38b34ae5 }
  function MulC4(x: bv32): bv32 { x * 0xa1e38b93 }
  function UnMulC1(x: bv32): bv32 { x * 0x89c95413 }
  function UnMulC2(x: bv32): bv32 { x * 0xdf130eb9 }
  function UnMulC3(x: bv32): bv32 { x * 0x747862ed }
  function UnMulC4(x: bv32): bv32 { x * 0x58d64a9b }

  lemma MulCProducts(x: bv32)
    ensures UnMulC1(x * 0x239b961b) == x && UnMulC2(x * 0xab0e9789) == x
    ensures UnMulC3(x * 0x38b34ae5) == x && UnMulC4(x * 0xa1e38b93) == x
  {
  }

  lemma MulCInverses(x: bv32)
    ensures UnMulC1(MulC1(x)) == x && UnMulC2(MulC2(x)) == x
    ensures UnMulC3(MulC3(x)) == x && UnMulC4(MulC4(x)) == x
  {
    MulCProducts(x);
  }

  /** The four accumulators `H1`..`H4`. */
  datatype Words = Words(h1: bv32, h2: bv32, h3: bv32, h4: bv32)

  /** The mutable part of an engine: the accumulators and the number of bytes hashed. */
  datatype State = State(h: Words, length: int32)

  /** The state `Reset` establishes: every accumulator holds the seed, nothing hashed. */
  function Initial(seed: bv32): State {
    State(Words(seed, seed, seed, seed), 0)
  }

  // ---------------------------------------------------------------------
  // Blocks
  // ---------------------------------------------------------------------

  /** The key scrambles: `(k * c1).RotateLeft(15) * c2` for `k1`, and so on round the constants. */
  function ScrambleK1(k: bv32): bv32 { MulC2(Rotl(MulC1(k), 15)) }
  function ScrambleK2(k: bv32): bv32 { MulC3(Rotl(MulC2(k), 16)) }
  function ScrambleK3(k: bv32): bv32 { MulC4(Rotl(MulC3(k), 17)) }
  function ScrambleK4(k: bv32): bv32 { MulC1(Rotl(MulC4(k), 18)) }

  /**
   * The shape of every accumulator update in a block: XOR the scrambled key
   * `sk` in, rotate left by `r`, add the neighbouring accumulator, times 5,
   * plus `c`.
   */
  function Round(h: bv32, sk: bv32, r: nat, other: bv32, c: bv32): bv32
    requires r <= 32
  {
    Add(Mul5(Add(Rotl(Xor(h, sk), r), other)), c)
  }

  /**
   * One 16-byte block with keys `k1`..`k4`. `H1` takes the old `H2`, `H2` the
   * old `H3`, `H3` the old `H4`, and `H4` the `H1` this block has just made.
   */
  function MixKeys(w: Words, k1: bv32, k2: bv32, k3: bv32, k4: bv32): Words {
    var h1 := Round(w.h1, ScrambleK1(k1), 19, w.h2, 0x561ccd1b);
    var h2 := Round(w.h2, ScrambleK2(k2), 17, w.h3, 0x0bcaa747);
    var h3 := Round(w.h3, ScrambleK3(k3), 15, w.h4, 0x96cd1c35);
    var h4 := Round(w.h4, ScrambleK4(k4), 13, h1, 0x32ac3b17);
    Words(h1, h2, h3, h4)
  }

  /** A block: four little-endian `uint` keys at offsets 0, 4, 8 and 12. */
  function MixBlock(w: Words, block: seq<byte>): Words
    requires |block| == 16
  {
    MixKeys(w, ToUInt32(block, 0), ToUInt32(block, 4), ToUInt32(block, 8), ToUInt32(block, 12))
  }

  /** The block at `i` of a larger buffer is read in place. */
  lemma MixBlockAt(w: Words, data: seq<byte>, i: nat)
    requires i + 16 <= |data|
    ensures MixBlock(w, data[i..i + 16])
         == MixKeys(w, ToUInt32(data, i), ToUInt32(data, i + 4), ToUInt32(data, i + 8), ToUInt32(data, i + 12))
  {
    hide MixKeys, ToUInt32;
    ToUInt32Slice(data, i, i + 16, 0);
    ToUInt32Slice(data, i, i + 16, 4);
    ToUInt32Slice(data, i, i + 16, 8);
    ToUInt32Slice(data, i, i + 16, 12);
  }

  // ---------------------------------------------------------------------
  // Tail
  // ---------------------------------------------------------------------

  /** `Tail` once its keys are known: each scrambled key is XORed into its accumulator. */
  function TailWords(w: Words, k1: bv32, k2: bv32, k3: bv32, k4: bv32): Words {
    Words(Xor(w.h1, ScrambleK1(k1)), Xor(w.h2, ScrambleK2(k2)), Xor(w.h3, ScrambleK3(k3)), Xor(w.h4, ScrambleK4(k4)))
  }

  /**
   * `Tail` on the 1 to 15 leftover bytes: byte `j` goes into key `k(j / 4 + 1)`
   * at bits `8 * (j % 4)`; bytes past the tail count as zero.
   */
  function TailMix(w: Words, tail: seq<byte>): Words
    requires |tail| < 16
  {
    var p := Padded(tail, 16);
    TailWords(w, ToUInt32(p, 0), ToUInt32(p, 4), ToUInt32(p, 8), ToUInt32(p, 12))
  }

  /**
   * The cases of `Tail`'s fall-through switch that fill one key: the key at
   * byte offset `o` of the tail (0 for `k1`, 4 for `k2`, 8 for `k3`, 12 for
   * `k4`) takes the tail bytes `o + 3` down to `o` that exist, byte `o + j`
   * at bits `8j`. For `k4` the first case never fires: a tail has at most
   * 15 bytes, so the switch has no case for byte 15.
   */
  method ReadTailKey(tail: array<byte>, position: int, remainder: int, o: int) returns (k: bv32)
    requires 0 < remainder < 16 && 0 <= position && position + remainder <= tail.Length
    requires o == 0 || o == 4 || o == 8 || o == 12
    ensures k == ToUInt32(Padded(tail[position..position + remainder], 16), o)
  {
    hide Word32, Padded, ToUInt32;
    k := 0;
    if remainder >= o + 4 { k := k ^ ((tail[position + o + 3] as bv32) << 24); }
    if remainder >= o + 3 { k := k ^ ((tail[position + o + 2] as bv32) << 16); }
    if remainder >= o + 2 { k := k ^ ((tail[position + o + 1] as bv32) << 8); }
    if remainder >= o + 1 { k := k ^ (tail[position + o] as bv32); }
    ghost var t := tail[..];
    PaddedWord32(t, position, remainder, 16, o);
    Word32Xor(TailByte(t, position, remainder, o), TailByte(t, position, remainder, o + 1),
              TailByte(t, position, remainder, o + 2), TailByte(t, position, remainder, o + 3));
  }

  /** `Body` on a chunk: every whole block in order, then the tail if there is one. */
  function BodyMix(w: Words, chunk: seq<byte>): Words {
    BodyFold(MixBlock, TailMix, 16, w, chunk)
  }

  /** `HashCore` on a chunk: `Length += |chunk|` (wrapping like a C# `int`) and `Body`. */
  function Update(s: State, chunk: seq<byte>): State {
    State(BodyMix(s.h, chunk), AddInt32(s.length, |chunk|))
  }

  // ---------------------------------------------------------------------
  // HashFinal
  // ---------------------------------------------------------------------

  /** `len = (uint)Length` XORed into every accumulator. */
  function XorLength(w: Words, len: bv32): Words {
    Words(Xor(w.h1, len), Xor(w.h2, len), Xor(w.h3, len), Xor(w.h4, len))
  }

  /** `H1 += H2 + H3 + H4`, then the new `H1` added into `H2`, `H3` and `H4`. */
  function CrossAdd(w: Words): Words {
    var h1 := Add(w.h1, Add(Add(w.h2, w.h3), w.h4));
    Words(h1, Add(w.h2, h1), Add(w.h3, h1), Add(w.h4, h1))
  }

  /** fmix32 on each accumulator. */
  function FMixWords(w: Words): Words {
    Words(FMix32(w.h1), FMix32(w.h2), FMix32(w.h3), FMix32(w.h4))
  }

  /** The accumulators `HashFinal` leaves, for a length of `len`. */
  function FinalWords(w: Words, len: bv32): Words {
    CrossAdd(FMixWords(CrossAdd(XorLength(w, len))))
  }

  /** The state `HashFinal` leaves behind. */
  function Final(s: State): (r: State)
    ensures r.length == s.length
  {
    State(FinalWords(s.h, UInt32Of(s.length)), s.length)
  }

  /** The accumulators written out: `H1` at byte 0, `H2` at 4, `H3` at 8, `H4` at 12, each little-endian. */
  function WordsBytes(w: Words): (d: seq<byte>)
    ensures |d| == 16
  {
    GetBytes32(w.h1) + GetBytes32(w.h2) + GetBytes32(w.h3) + GetBytes32(w.h4)
  }

  /** The bytes `HashFinal` returns. */
  function Digest(s: State): (d: seq<byte>)
    ensures |d| * 8 == Murmur128.HashSize
  {
    WordsBytes(Final(s).h)
  }

  // ---------------------------------------------------------------------
  // Properties
  // ---------------------------------------------------------------------

  /** The undoing of each key scramble. */
  function UnScrambleK1(x: bv32): bv32 { UnMulC1(Rotr(UnMulC2(x), 15)) }
  function UnScrambleK2(x: bv32): bv32 { UnMulC2(Rotr(UnMulC3(x), 16)) }
  function UnScrambleK3(x: bv32): bv32 { UnMulC3(Rotr(UnMulC4(x), 17)) }
  function UnScrambleK4(x: bv32): bv32 { UnMulC4(Rotr(UnMulC1(x), 18)) }

  /** No key scramble loses anything. */
  lemma ScrambleInverses(k: bv32)
    ensures UnScrambleK1(ScrambleK1(k)) == k && UnScrambleK2(ScrambleK2(k)) == k
    ensures UnScrambleK3(ScrambleK3(k)) == k && UnScrambleK4(ScrambleK4(k)) == k
  {
    MulCInverses(k);
    MulCInverses(Rotl(MulC1(k), 15));
    MulCInverses(Rotl(MulC2(k), 16));
    MulCInverses(Rotl(MulC3(k), 17));
    MulCInverses(Rotl(MulC4(k), 18));
    RotlInverse(MulC1(k), 15);
    RotlInverse(MulC2(k), 16);
    RotlInverse(MulC3(k), 17);
    RotlInverse(MulC4(k), 18);
  }

  /** A zero key scrambles to zero: the reason a missing tail key leaves its accumulator alone. */
  lemma ScrambleZero()
    ensures ScrambleK1(0) == 0 && ScrambleK2(0) == 0 && ScrambleK3(0) == 0 && ScrambleK4(0) == 0
  {
    assert MulC1(0) == 0 && MulC2(0) == 0 && MulC3(0) == 0 && MulC4(0) == 0;
    assert Rotl(0, 15) == 0 && Rotl(0, 16) == 0 && Rotl(0, 17) == 0 && Rotl(0, 18) == 0;
  }

  /** The undoing of `Round` for a known key and neighbour. */
  function UnRound(h: bv32, sk: bv32, r: nat, other: bv32, c: bv32): bv32
    requires r <= 32
  {
    Xor(Rotr(Sub(UnMul5(Sub(h, c)), other), r), sk)
  }

  lemma RoundInverse(h: bv32, sk: bv32, r: nat, other: bv32, c: bv32)
    requires r <= 32
    ensures UnRound(Round(h, sk, r, other, c), sk, r, other, c) == h
  {
    var x := Rotl(Xor(h, sk), r);
    AddInverse(Mul5(Add(x, other)), c);
    Mul5Inverse(Add(x, other));
    AddInverse(x, other);
    RotlInverse(Xor(h, sk), r);
    XorInverse(h, sk);
  }

  /** The undoing of a block, last accumulator first: `H4` needs the new `H1`, `H3` the old `H4`, and so on. */
  function UnMixKeys(w: Words, k1: bv32, k2: bv32, k3: bv32, k4: bv32): Words {
    var h4 := UnRound(w.h4, ScrambleK4(k4), 13, w.h1, 0x32ac3b17);
    var h3 := UnRound(w.h3, ScrambleK3(k3), 15, h4, 0x96cd1c35);
    var h2 := UnRound(w.h2, ScrambleK2(k2), 17, h3, 0x0bcaa747);
    var h1 := UnRound(w.h1, ScrambleK1(k1), 19, h2, 0x561ccd1b);
    Words(h1, h2, h3, h4)
  }

  /** For fixed keys, a block permutes the accumulators: it can be undone. */
  lemma MixKeysInverse(w: Words, k1: bv32, k2: bv32, k3: bv32, k4: bv32)
    ensures UnMixKeys(MixKeys(w, k1, k2, k3, k4), k1, k2, k3, k4) == w
  {
    var h1 := Round(w.h1, ScrambleK1(k1), 19, w.h2, 0x561ccd1b);
    RoundInverse(w.h4, ScrambleK4(k4), 13, h1, 0x32ac3b17);
    RoundInverse(w.h3, ScrambleK3(k3), 15, w.h4, 0x96cd1c35);
    RoundInverse(w.h2, ScrambleK2(k2), 17, w.h3, 0x0bcaa747);
    RoundInverse(w.h1, ScrambleK1(k1), 19, w.h2, 0x561ccd1b);
  }

  lemma MixBlockInverse(w: Words, block: seq<byte>)
    requires |block| == 16
    ensures UnMixKeys(MixBlock(w, block), ToUInt32(block, 0), ToUInt32(block, 4), ToUInt32(block, 8), ToUInt32(block, 12)) == w
  {
    MixKeysInverse(w, ToUInt32(block, 0), ToUInt32(block, 4), ToUInt32(block, 8), ToUInt32(block, 12));
  }

  /** The tail keys, written out little-endian one after another, are the tail padded with zeros to 16 bytes. */
  lemma TailKeysLayout(tail: seq<byte>)
    requires |tail| < 16
    ensures var p := Padded(tail, 16);
      GetBytes32(ToUInt32(p, 0)) + GetBytes32(ToUInt32(p, 4)) + GetBytes32(ToUInt32(p, 8)) + GetBytes32(ToUInt32(p, 12)) == p
  {
    var p := Padded(tail, 16);
    ToUInt32RoundTrip(p, 0);
    ToUInt32RoundTrip(p, 4);
    ToUInt32RoundTrip(p, 8);
    ToUInt32RoundTrip(p, 12);
    assert p == p[0..4] + p[4..8] + p[8..12] + p[12..16];
  }

  /**
   * A short tail leaves the higher accumulators alone: with at most 4 bytes
   * only `H1` changes, with at most 8 only `H1` and `H2`, with at most 12
   * `H4` stays as it was.
   */
  lemma TailLeavesHigherWords(w: Words, tail: seq<byte>)
    requires |tail| < 16
    ensures |tail| <= 4 ==> TailMix(w, tail).h2 == w.h2
    ensures |tail| <= 8 ==> TailMix(w, tail).h3 == w.h3
    ensures |tail| <= 12 ==> TailMix(w, tail).h4 == w.h4
  {
    var p := Padded(tail, 16);
    ScrambleZero();
    if |tail| <= 4 {
      ToUInt32OfZeros(p, 4);
      XorZero(w.h2);
    }
    if |tail| <= 8 {
      ToUInt32OfZeros(p, 8);
      XorZero(w.h3);
    }
    if |tail| <= 12 {
      ToUInt32OfZeros(p, 12);
      XorZero(w.h4);
    }
  }

  /** The tail only XORs: applying the same tail twice gives the accumulators back. */
  lemma TailMixInvolutive(w: Words, tail: seq<byte>)
    requires |tail| < 16
    ensures TailMix(TailMix(w, tail), tail) == w
  {
    var p := Padded(tail, 16);
    XorInverse(w.h1, ScrambleK1(ToUInt32(p, 0)));
    XorInverse(w.h2, ScrambleK2(ToUInt32(p, 4)));
    XorInverse(w.h3, ScrambleK3(ToUInt32(p, 8)));
    XorInverse(w.h4, ScrambleK4(ToUInt32(p, 12)));
  }

  /** Hashing an empty chunk changes nothing. */
  lemma UpdateEmpty(s: State)
    ensures Update(s, []) == s
  {
  }

  /** A chunk of whole blocks goes through the block loop only: `Tail` does not run. */
  lemma BodyMixAligned(w: Words, chunk: seq<byte>)
    requires |chunk| % 16 == 0
    ensures BodyMix(w, chunk) == Blocks(MixBlock, 16, w, chunk)
  {
    AlignedMultiple(16, chunk, |chunk| / 16);
    BodyFoldAligned(MixBlock, TailMix, 16, w, chunk);
  }

  /**
   * Block-aligned chunking invariance: hashing `x`, whose length is a multiple
   * of 16, and then `y` leaves the same accumulators and `Length` as hashing `x + y`.
   */
  lemma UpdateAppend(s: State, x: seq<byte>, y: seq<byte>)
    requires |x| % 16 == 0
    ensures Update(Update(s, x), y) == Update(s, x + y)
  {
    AlignedMultiple(16, x, |x| / 16);
    BodyMixAligned(s.h, x);
    BodyFoldAppend(MixBlock, TailMix, 16, s.h, x, y);
    AddInt32Twice(s.length, |x|, |y|);
  }

  /** The undoing of `CrossAdd`: the other accumulators first, then `H1`. */
  function UnCrossAdd(w: Words): Words {
    var h2 := Sub(w.h2, w.h1);
    var h3 := Sub(w.h3, w.h1);
    var h4 := Sub(w.h4, w.h1);
    Words(Sub(w.h1, Add(Add(h2, h3), h4)), h2, h3, h4)
  }

  lemma CrossAddInverse(w: Words)
    ensures UnCrossAdd(CrossAdd(w)) == w
  {
    var h1 := Add(w.h1, Add(Add(w.h2, w.h3), w.h4));
    AddInverse(w.h2, h1);
    AddInverse(w.h3, h1);
    AddInverse(w.h4, h1);
    AddInverse(w.h1, Add(Add(w.h2, w.h3), w.h4));
  }

  /** The undoing of `FMixWords`. */
  function UnFMixWords(w: Words): Words {
    Words(UnFMix32(w.h1), UnFMix32(w.h2), UnFMix32(w.h3), UnFMix32(w.h4))
  }

  /** The undoing of `FinalWords` for a known length: the phases in reverse order. */
  function UnFinalWords(w: Words, len: bv32): Words {
    XorLength(UnCrossAdd(UnFMixWords(UnCrossAdd(w))), len)
  }

  /** For a fixed length, finalisation permutes the accumulators: nothing is lost. */
  lemma FinalWordsInverse(w: Words, len: bv32)
    ensures UnFinalWords(FinalWords(w, len), len) == w
  {
    var a := XorLength(w, len);
    var b := CrossAdd(a);
    var c := FMixWords(b);
    CrossAddInverse(c);
    FMix32Bijective(b.h1);
    FMix32Bijective(b.h2);
    FMix32Bijective(b.h3);
    FMix32Bijective(b.h4);
    assert UnFMixWords(c) == b;
    CrossAddInverse(a);
    XorInverse(w.h1, len);
    XorInverse(w.h2, len);
    XorInverse(w.h3, len);
    XorInverse(w.h4, len);
  }

  /** Reading the written accumulators back gives them in order. */
  lemma WordsBytesDecode(w: Words)
    ensures var d := WordsBytes(w);
      ToUInt32(d, 0) == w.h1 && ToUInt32(d, 4) == w.h2 && ToUInt32(d, 8) == w.h3 && ToUInt32(d, 12) == w.h4
  {
    var d := WordsBytes(w);
    assert d[0..4] == GetBytes32(w.h1) && d[4..8] == GetBytes32(w.h2);
    assert d[8..12] == GetBytes32(w.h3) && d[12..16] == GetBytes32(w.h4);
    ToUInt32At(d, 0, w.h1);
    ToUInt32At(d, 4, w.h2);
    ToUInt32At(d, 8, w.h3);
    ToUInt32At(d, 12, w.h4);
  }

  /** The digest is exactly the four final accumulators, little-endian, in order. */
  lemma DigestDecodes(s: State)
    ensures var d, f := Digest(s), Final(s).h;
      ToUInt32(d, 0) == f.h1 && ToUInt32(d, 4) == f.h2 && ToUInt32(d, 8) == f.h3 && ToUInt32(d, 12) == f.h4
  {
    WordsBytesDecode(Final(s).h);
  }

  /** Two states that hashed the same number of bytes have equal digests only if their accumulators agree. */
  lemma DigestInjective(s: State, t: State)
    requires s.length == t.length && Digest(s) == Digest(t)
    ensures s.h == t.h
  {
    DigestDecodes(s);
    DigestDecodes(t);
    FinalWordsInverse(s.h, UInt32Of(s.length));
    FinalWordsInverse(t.h, UInt32Of(s.length));
  }

  /** With nothing hashed the length XOR is a no-op: the digest is finalisation of four copies of the seed. */
  lemma EmptyDigest(seed: bv32)
    ensures Digest(Initial(seed)) == WordsBytes(CrossAdd(FMixWords(CrossAdd(Words(seed, seed, seed, seed)))))
  {
    assert UInt32Of(0) == 0;
    XorZero(seed);
  }
}
