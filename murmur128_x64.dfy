/**
 * MurmurHash3_x64_128, the algorithm of `Murmur128ManagedX64` and
 * `Murmur128UnmanagedX64`. Two `ulong` accumulators `H1` and `H2` start at
 * the seed; every 16-byte block is read as two little-endian `ulong` keys and
 * mixed in, and the 1 to 15 leftover bytes are scrambled into two keys that
 * are XORed in. `HashFinal` folds in the length, cross-adds the accumulators,
 * applies fmix64 to each, cross-adds again and writes `H1` and `H2` out
 * little-endian.
 *
 * The functions say what both engines compute on values; each engine's class
 * does it in place, field by field, and is proved to compute these functions.
 */
module Murmur128X64 {
  import opened Primitives
  import opened BlockFold
  import Murmur128

  // The key constants `c1 = 0x87c37b91114253d5` and `c2 = 0x4cf5ad432745937f`,
  // as multiplications, with their inverses modulo 2^64.

  function MulC1(x: bv64): bv64 { x * 0x87c37b91114253d5 }
  function MulC2(x: bv64): bv64 { x * 0x4cf5ad432745937f }
  function UnMulC1(x: bv64): bv64 { x * 0xa98409e882ce4d7d }
  function UnMulC2(x: bv64): bv64 { x * 0xa81e14edd9de2c7f }

  lemma MulCProducts(x: bv64)
    ensures UnMulC1(x * 0x87c37b91114253d5) == x && UnMulC2(x * 0x4cf5ad432745937f) == x
  {
  }

  lemma MulCInverses(x: bv64)
    ensures UnMulC1(MulC1(x)) == x && UnMulC2(MulC2(x)) == x
  {
    MulCProducts(x);
  }

  /** The two accumulators `H1` and `H2`. */
  datatype Words = Words(h1: bv64, h2: bv64)

  /** The mutable part of an engine: the accumulators and the number of bytes hashed. */
  datatype State = State(h: Words, length: int32)

  /** The state `Reset` establishes: both accumulators hold the `uint` seed, widened with zeros; nothing hashed. */
  function Initial(seed: bv32): State {
    State(Words(seed as bv64, seed as bv64), 0)
  }

  // ---------------------------------------------------------------------
  // Blocks
  // ---------------------------------------------------------------------

  /** The key scrambles: `(k1 * c1).RotateLeft(31) * c2` and `(k2 * c2).RotateLeft(33) * c1`. */
  function ScrambleK1(k: bv64): bv64 { MulC2(Rotl64(MulC1(k), 31)) }
  function ScrambleK2(k: bv64): bv64 { MulC1(Rotl64(MulC2(k), 33)) }

  /**
   * The shape of both accumulator updates in a block: XOR the scrambled key
   * `sk` in, rotate left by `r`, add the other accumulator, times 5, plus `c`.
   */
  function Round(h: bv64, sk: bv64, r: nat, other: bv64, c: bv64): bv64
    requires r <= 64
  {
    Add64(Mul5x64(Add64(Rotl64(Xor64(h, sk), r), other)), c)
  }

  /** One 16-byte block with keys `k1` and `k2`: `H1` takes the old `H2`, `H2` the `H1` just made. */
  function MixKeys(w: Words, k1: bv64, k2: bv64): Words {
    var h1 := Round(w.h1, ScrambleK1(k1), 27, w.h2, 0x52dce729);
    var h2 := Round(w.h2, ScrambleK2(k2), 31, h1, 0x38495ab5);
    Words(h1, h2)
  }

  /** A block: two little-endian `ulong` keys at offsets 0 and 8. */
  function MixBlock(w: Words, block: seq<byte>): Words
    requires |block| == 16
  {
    MixKeys(w, ToUInt64(block, 0), ToUInt64(block, 8))
  }

  /** The block at `i` of a larger buffer is read in place. */
  lemma MixBlockAt(w: Words, data: seq<byte>, i: nat)
    requires i + 16 <= |data|
    ensures MixBlock(w, data[i..i + 16]) == MixKeys(w, ToUInt64(data, i), ToUInt64(data, i + 8))
  {
    hide MixKeys, ToUInt64;
    ToUInt64Slice(data, i, i + 16, 0);
    ToUInt64Slice(data, i, i + 16, 8);
  }

  // ---------------------------------------------------------------------
  // Tail
  // ---------------------------------------------------------------------

  /** `Tail` once its keys are known: each scrambled key is XORed into its accumulator. */
  function TailWords(w: Words, k1: bv64, k2: bv64): Words {
    Words(Xor64(w.h1, ScrambleK1(k1)), Xor64(w.h2, ScrambleK2(k2)))
  }

  /**
   * `Tail` on the 1 to 15 leftover bytes: byte `j` goes into `k1` (for
   * `j < 8`) or `k2` at bits `8 * (j % 8)`; bytes past the tail count as zero.
   */
  function TailMix(w: Words, tail: seq<byte>): Words
    requires |tail| < 16
  {
    var p := Padded(tail, 16);
    TailWords(w, ToUInt64(p, 0), ToUInt64(p, 8))
  }

  /**
   * The cases of `Tail`'s fall-through switch that fill one key: the key at
   * byte offset `o` of the tail (0 for `k1`, 8 for `k2`) takes the tail bytes
   * `o + 7` down to `o` that exist, byte `o + j` at bits `8j`. For `k2` the
   * first case never fires: a tail has at most 15 bytes, so the switch has
   * no case for byte 15.
   */
  method ReadTailKey(tail: array<byte>, position: int, remainder: int, o: int) returns (k: bv64)
    requires 0 < remainder < 16 && 0 <= position && position + remainder <= tail.Length
    requires o == 0 || o == 8
    ensures k == ToUInt64(Padded(tail[position..position + remainder], 16), o)
  {
    hide Word64, Padded, ToUInt64;
    k := 0;
    if remainder >= o + 8 { k := k ^ ((tail[position + o + 7] as bv64) << 56); }
    if remainder >= o + 7 { k := k ^ ((tail[position + o + 6] as bv64) << 48); }
    if remainder >= o + 6 { k := k ^ ((tail[position + o + 5] as bv64) << 40); }
    if remainder >= o + 5 { k := k ^ ((tail[position + o + 4] as bv64) << 32); }
    if remainder >= o + 4 { k := k ^ ((tail[position + o + 3] as bv64) << 24); }
    if remainder >= o + 3 { k := k ^ ((tail[position + o + 2] as bv64) << 16); }
    if remainder >= o + 2 { k := k ^ ((tail[position + o + 1] as bv64) << 8); }
    if remainder >= o + 1 { k := k ^ (tail[position + o] as bv64); }
    ghost var t := tail[..];
    PaddedWord64(t, position, remainder, 16, o);
    Word64Xor(TailByte(t, position, remainder, o), TailByte(t, position, remainder, o + 1),
              TailByte(t, position, remainder, o + 2), TailByte(t, position, remainder, o + 3),
              TailByte(t, position, remainder, o + 4), TailByte(t, position, remainder, o + 5),
              TailByte(t, position, remainder, o + 6), TailByte(t, position, remainder, o + 7));
  }

  /** `Body` on a chunk: every whole block in order, then the tail if there is one. */
  function BodyMix(w: Words, chunk: seq<byte>): Words {
    BodyFold(MixBlock, TailMix, 16, w, chunk)
  }

  /** `HashCore` on a chunk: `Length += |chunk|` (wrapping like a C# `int`) and `Body`. */
  function Update(s: State, chunk: seq<byte>): State {
    State(BodyMix(s.h, chunk), AddInt32(s.length, |chunk|))
  }

  // ---------------------------------------------------------------------
  // HashFinal
  // ---------------------------------------------------------------------

  /** `len = (ulong)Length` XORed into both accumulators. */
  function XorLength(w: Words, len: bv64): Words {
    Words(Xor64(w.h1, len), Xor64(w.h2, len))
  }

  /** `H1 += H2`, then `H2 += H1`. */
  function CrossAdd(w: Words): Words {
    var h1 := Add64(w.h1, w.h2);
    Words(h1, Add64(w.h2, h1))
  }

  /** fmix64 on each accumulator. */
  function FMixWords(w: Words): Words {
    Words(FMix64(w.h1), FMix64(w.h2))
  }

  /** The accumulators `HashFinal` leaves, for a length of `len`. */
  function FinalWords(w: Words, len: bv64): Words {
    CrossAdd(FMixWords(CrossAdd(XorLength(w, len))))
  }

  /** The state `HashFinal` leaves behind; `(ulong)Length` sign-extends the C# `int`. */
  function Final(s: State): (r: State)
    ensures r.length == s.length
  {
    State(FinalWords(s.h, UInt64Of(s.length)), s.length)
  }

  /** The accumulators written out: `H1` at byte 0 and `H2` at byte 8, each little-endian. */
  function WordsBytes(w: Words): (d: seq<byte>)
    ensures |d| == 16
  {
    GetBytes64(w.h1) + GetBytes64(w.h2)
  }

  /** The bytes `HashFinal` returns. */
  function Digest(s: State): (d: seq<byte>)
    ensures |d| * 8 == Murmur128.HashSize
  {
    WordsBytes(Final(s).h)
  }

  // ---------------------------------------------------------------------
  // Properties
  // ---------------------------------------------------------------------

  /** The undoing of each key scramble. */
  function UnScrambleK1(x: bv64): bv64 { UnMulC1(Rotr64(UnMulC2(x), 31)) }
  function UnScrambleK2(x: bv64): bv64 { UnMulC2(Rotr64(UnMulC1(x), 33)) }

  /** Neither key scramble loses anything. */
  lemma ScrambleInverses(k: bv64)
    ensures UnScrambleK1(ScrambleK1(k)) == k && UnScrambleK2(ScrambleK2(k)) == k
  {
    MulCInverses(k);
    MulCInverses(Rotl64(MulC1(k), 31));
    MulCInverses(Rotl64(MulC2(k), 33));
    RotlInverse64(MulC1(k), 31);
    RotlInverse64(MulC2(k), 33);
  }

  /** A zero key scrambles to zero: the reason a missing `k2` leaves `H2` alone. */
  lemma ScrambleZero()
    ensures ScrambleK1(0) == 0 && ScrambleK2(0) == 0
  {
    assert MulC1(0) == 0 && MulC2(0) == 0;
    assert Rotl64(0, 31) == 0 && Rotl64(0, 33) == 0;
  }

  /** The undoing of `Round` for a known key and neighbour. */
  function UnRound(h: bv64, sk: bv64, r: nat, other: bv64, c: bv64): bv64
    requires r <= 64
  {
    Xor64(Rotr64(Sub64(UnMul5x64(Sub64(h, c)), other), r), sk)
  }

  lemma RoundInverse(h: bv64, sk: bv64, r: nat, other: bv64, c: bv64)
    requires r <= 64
    ensures UnRound(Round(h, sk, r, other, c), sk, r, other, c) == h
  {
    var x := Rotl64(Xor64(h, sk), r);
    AddInverse64(Mul5x64(Add64(x, other)), c);
    Mul5Inverse64(Add64(x, other));
    AddInverse64(x, other);
    RotlInverse64(Xor64(h, sk), r);
    XorInverse64(h, sk);
  }

  /** The undoing of a block: `H2` first, with the new `H1`, then `H1` with the old `H2`. */
  function UnMixKeys(w: Words, k1: bv64, k2: bv64): Words {
    var h2 := UnRound(w.h2, ScrambleK2(k2), 31, w.h1, 0x38495ab5);
    var h1 := UnRound(w.h1, ScrambleK1(k1), 27, h2, 0x52dce729);
    Words(h1, h2)
  }

  /** For fixed keys, a block permutes the accumulators: it can be undone. */
  lemma MixKeysInverse(w: Words, k1: bv64, k2: bv64)
    ensures UnMixKeys(MixKeys(w, k1, k2), k1, k2) == w
  {
    var h1 := Round(w.h1, ScrambleK1(k1), 27, w.h2, 0x52dce729);
    RoundInverse(w.h2, ScrambleK2(k2), 31, h1, 0x38495ab5);
    RoundInverse(w.h1, ScrambleK1(k1), 27, w.h2, 0x52dce729);
  }

  lemma MixBlockInverse(w: Words, block: seq<byte>)
    requires |block| == 16
    ensures UnMixKeys(MixBlock(w, block), ToUInt64(block, 0), ToUInt64(block, 8)) == w
  {
    MixKeysInverse(w, ToUInt64(block, 0), ToUInt64(block, 8));
  }

  /** The tail keys, written out little-endian one after the other, are the tail padded with zeros to 16 bytes. */
  lemma TailKeysLayout(tail: seq<byte>)
    requires |tail| < 16
    ensures var p := Padded(tail, 16);
      GetBytes64(ToUInt64(p, 0)) + GetBytes64(ToUInt64(p, 8)) == p
  {
    var p := Padded(tail, 16);
    ToUInt64RoundTrip(p, 0);
    ToUInt64RoundTrip(p, 8);
    assert p == p[0..8] + p[8..16];
  }

  /** A tail of at most 8 bytes leaves `H2` as it was. */
  lemma TailLeavesH2(w: Words, tail: seq<byte>)
    requires |tail| <= 8
    ensures TailMix(w, tail).h2 == w.h2
  {
    var p := Padded(tail, 16);
    ScrambleZero();
    ToUInt64OfZeros(p, 8);
    XorZero64(w.h2);
  }

  /** The tail only XORs: applying the same tail twice gives the accumulators back. */
  lemma TailMixInvolutive(w: Words, tail: seq<byte>)
    requires |tail| < 16
    ensures TailMix(TailMix(w, tail), tail) == w
  {
    var p := Padded(tail, 16);
    XorInverse64(w.h1, ScrambleK1(ToUInt64(p, 0)));
    XorInverse64(w.h2, ScrambleK2(ToUInt64(p, 8)));
  }

  /** Hashing an empty chunk changes nothing. */
  lemma UpdateEmpty(s: State)
    ensures Update(s, []) == s
  {
  }

  /** A chunk of whole blocks goes through the block loop only: `Tail` does not run. */
  lemma BodyMixAligned(w: Words, chunk: seq<byte>)
    requires |chunk| % 16 == 0
    ensures BodyMix(w, chunk) == Blocks(MixBlock, 16, w, chunk)
  {
    AlignedMultiple(16, chunk, |chunk| / 16);
    BodyFoldAligned(MixBlock, TailMix, 16, w, chunk);
  }

  /**
   * Block-aligned chunking invariance: hashing `x`, whose length is a multiple
   * of 16, and then `y` leaves the same accumulators and `Length` as hashing `x + y`.
   */
  lemma UpdateAppend(s: State, x: seq<byte>, y: seq<byte>)
    requires |x| % 16 == 0
    ensures Update(Update(s, x), y) == Update(s, x + y)
  {
    AlignedMultiple(16, x, |x| / 16);
    BodyMixAligned(s.h, x);
    BodyFoldAppend(MixBlock, TailMix, 16, s.h, x, y);
    AddInt32Twice(s.length, |x|, |y|);
  }

  /** The undoing of `CrossAdd`: `H2` first, then `H1`. */
  function UnCrossAdd(w: Words): Words {
    var h2 := Sub64(w.h2, w.h1);
    Words(Sub64(w.h1, h2), h2)
  }

  lemma CrossAddInverse(w: Words)
    ensures UnCrossAdd(CrossAdd(w)) == w
  {
    var h1 := Add64(w.h1, w.h2);
    AddInverse64(w.h2, h1);
    AddInverse64(w.h1, w.h2);
  }

  /** The undoing of `FMixWords`. */
  function UnFMixWords(w: Words): Words {
    Words(UnFMix64(w.h1), UnFMix64(w.h2))
  }

  /** The undoing of `FinalWords` for a known length: the phases in reverse order. */
  function UnFinalWords(w: Words, len: bv64): Words {
    XorLength(UnCrossAdd(UnFMixWords(UnCrossAdd(w))), len)
  }

  /** For a fixed length, finalisation permutes the accumulators: nothing is lost. */
  lemma FinalWordsInverse(w: Words, len: bv64)
    ensures UnFinalWords(FinalWords(w, len), len) == w
  {
    var a := XorLength(w, len);
    var b := CrossAdd(a);
    var c := FMixWords(b);
    CrossAddInverse(c);
    FMix64Bijective(b.h1);
    FMix64Bijective(b.h2);
    assert UnFMixWords(c) == b;
    CrossAddInverse(a);
    XorInverse64(w.h1, len);
    XorInverse64(w.h2, len);
  }

  /** Reading the written accumulators back gives them in order. */
  lemma WordsBytesDecode(w: Words)
    ensures var d := WordsBytes(w);
      ToUInt64(d, 0) == w.h1 && ToUInt64(d, 8) == w.h2
  {
    var d := WordsBytes(w);
    assert d[0..8] == GetBytes64(w.h1) && d[8..16] == GetBytes64(w.h2);
    ToUInt64At(d, 0, w.h1);
    ToUInt64At(d, 8, w.h2);
  }

  /** The digest is exactly the two final accumulators, little-endian, in order. */
  lemma DigestDecodes(s: State)
    ensures var d, f := Digest(s), Final(s).h;
      ToUInt64(d, 0) == f.h1 && ToUInt64(d, 8) == f.h2
  {
    WordsBytesDecode(Final(s).h);
  }

  /** Two states that hashed the same number of bytes have equal digests only if their accumulators agree. */
  lemma DigestInjective(s: State, t: State)
    requires s.length == t.length && Digest(s) == Digest(t)
    ensures s.h == t.h
  {
    DigestDecodes(s);
    DigestDecodes(t);
    FinalWordsInverse(s.h, UInt64Of(s.length));
    FinalWordsInverse(t.h, UInt64Of(s.length));
  }

  /** With nothing hashed the length XOR is a no-op: the digest is finalisation of two copies of the widened seed. */
  lemma EmptyDigest(seed: bv32)
    ensures var h := seed as bv64;
      Digest(Initial(seed)) == WordsBytes(CrossAdd(FMixWords(CrossAdd(Words(h, h)))))
  {
    assert UInt64Of(0) == 0;
    XorZero64(seed as bv64);
  }
}
