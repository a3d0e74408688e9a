/**
 * `Murmur32ManagedX86`: MurmurHash3_x86_32 over managed arrays. `HashCore`
 * counts the chunk into `Length` and runs `Body`, which mixes every 4-byte
 * little-endian block into `H1` and hands the 1 to 3 leftover bytes to `Tail`.
 *
 * The functions below say what the engine computes on values; the class
 * `Murmur32ManagedX86` does it in place, field by field, as the C# class does,
 * and its methods are proved to compute those functions.
 */
module Murmur32Managed {
  import opened Primitives
  import opened BlockFold
  import opened Murmur32

  /** The key scramble `(k * C1).RotateLeft(15) * C2` applied to every block and to the tail key. */
  function ScrambleK1(k: bv32): bv32 {
    MulC2(Rotl(MulC1(k), 15))
  }

  /** One block step of `Body`: scramble the block key `k1` into `H1`, rotate by 13, times 5, plus 0xe6546b64. */
  function MixH1(h1: bv32, k1: bv32): bv32 {
    Add(Mul5(Rotl(Xor(h1, ScrambleK1(k1)), 13)), 0xe6546b64)
  }

  /** One 4-byte block, read as a little-endian `uint`, mixed into `H1`. */
  function MixBlock(h1: bv32, block: seq<byte>): bv32
    requires |block| == 4
  {
    MixH1(h1, ToUInt32(block, 0))
  }

  /** The block at `i` of a larger buffer is read in place. */
  lemma MixBlockAt(h1: bv32, data: seq<byte>, i: nat)
    requires i + 4 <= |data|
    ensures MixBlock(h1, data[i..i + 4]) == MixH1(h1, ToUInt32(data, i))
  {
    assert ToUInt32(data[i..i + 4], 0) == ToUInt32(data, i);
  }

  /** The tail key `k1`: the 1 to 3 leftover bytes, byte `j` at bits `8j`. */
  function TailKey(tail: seq<byte>): bv32
    requires |tail| < 4
  {
    ToUInt32(Padded(tail, 4), 0)
  }

  /** The last statement of `Tail`: `H1 ^= ScrambleK1(k1)`. */
  function TailH1(h1: bv32, k1: bv32): bv32 {
    Xor(h1, ScrambleK1(k1))
  }

  /** `Tail` on the leftover bytes of a chunk. */
  function TailMix(h1: bv32, tail: seq<byte>): bv32
    requires |tail| < 4
  {
    TailH1(h1, TailKey(tail))
  }

  /** `Body` on a chunk: every whole block in order, then the tail if there is one. */
  function BodyMix(h1: bv32, chunk: seq<byte>): bv32 {
    BodyFold(MixBlock, TailMix, 4, h1, chunk)
  }

  /** `HashCore` on a chunk: `Length += |chunk|` (wrapping like a C# `int`) and `Body`. */
  function Update(s: State, chunk: seq<byte>): State {
    State(BodyMix(s.h1, chunk), AddInt32(s.length, |chunk|))
  }

  // ---------------------------------------------------------------------
  // Properties
  // ---------------------------------------------------------------------

  /** The undoing of `ScrambleK1`. */
  function UnScrambleK1(x: bv32): bv32 {
    UnMulC1(Rotr(UnMulC2(x), 15))
  }

  /** The key scramble loses nothing. */
  lemma ScrambleK1Inverse(k: bv32)
    ensures UnScrambleK1(ScrambleK1(k)) == k
  {
    var a := MulC1(k);
    var b := Rotl(a, 15);
    MulCInverses(b);
    RotlInverse(a, 15);
    MulCInverses(k);
  }

  /** The undoing of `MixH1` for a known key. */
  function UnMixH1(h: bv32, k1: bv32): bv32 {
    Xor(Rotr(UnMul5(Sub(h, 0xe6546b64)), 13), ScrambleK1(k1))
  }

  lemma MixH1Inverse(h1: bv32, k1: bv32)
    ensures UnMixH1(MixH1(h1, k1), k1) == h1
  {
    var x := ScrambleK1(k1);
    var a := Rotl(Xor(h1, x), 13);
    AddInverse(Mul5(a), 0xe6546b64);
    Mul5Inverse(a);
    RotlInverse(Xor(h1, x), 13);
    XorInverse(h1, x);
  }

  /** For a fixed block, the block mix permutes `H1`: it can be undone. */
  lemma MixBlockInverse(h1: bv32, block: seq<byte>)
    requires |block| == 4
    ensures UnMixH1(MixBlock(h1, block), ToUInt32(block, 0)) == h1
  {
    MixH1Inverse(h1, ToUInt32(block, 0));
  }

  /** Tail byte `j` lands in bits `8j` of the key, and bytes past the tail are zero. */
  lemma TailKeyLayout(tail: seq<byte>)
    requires |tail| < 4
    ensures GetBytes32(TailKey(tail)) == Padded(tail, 4)
  {
    ToUInt32RoundTrip(Padded(tail, 4), 0);
  }

  /**
   * The tail only XORs into `H1`: whatever `H1` was, the tail changes it by the
   * same bits, so it neither rotates, multiplies nor adds the accumulator.
   */
  lemma TailMixOnlyXors(h: bv32, g: bv32, tail: seq<byte>)
    requires |tail| < 4
    ensures Xor(TailMix(h, tail), TailMix(g, tail)) == Xor(h, g)
  {
    XorCancel(h, g, ScrambleK1(TailKey(tail)));
  }

  /** From the same `H1`, `Tail` with different keys gives different results. */
  lemma TailH1Injective(h: bv32, k: bv32, k': bv32)
    requires TailH1(h, k) == TailH1(h, k')
    ensures k == k'
  {
    XorCancelLeft(h, ScrambleK1(k));
    XorCancelLeft(h, ScrambleK1(k'));
    ScrambleK1Inverse(k);
    ScrambleK1Inverse(k');
  }

  /** Tails of the same length with the same key are the same bytes. */
  lemma TailKeyInjective(t: seq<byte>, u: seq<byte>)
    requires |t| == |u| < 4 && TailKey(t) == TailKey(u)
    ensures t == u
  {
    TailKeyLayout(t);
    TailKeyLayout(u);
    assert Padded(t, 4)[..|t|] == t;
  }

  /**
   * From the same `H1`, two tails of the same length give the same `H1` only if
   * they are the same bytes: the tail key and its scramble lose nothing.
   */
  lemma TailMixInjective(h: bv32, t: seq<byte>, u: seq<byte>)
    requires |t| == |u| < 4 && TailMix(h, t) == TailMix(h, u)
    ensures t == u
  {
    TailH1Injective(h, TailKey(t), TailKey(u));
    TailKeyInjective(t, u);
  }

  /** Hashing an empty chunk changes nothing. */
  lemma UpdateEmpty(s: State)
    ensures Update(s, []) == s
  {
  }

  /** A chunk of whole blocks goes through the block loop only: `Tail` does not run. */
  lemma BodyMixAligned(h1: bv32, chunk: seq<byte>)
    requires |chunk| % 4 == 0
    ensures BodyMix(h1, chunk) == Blocks(MixBlock, 4, h1, chunk)
  {
    AlignedMultiple(4, chunk, |chunk| / 4);
    BodyFoldAligned(MixBlock, TailMix, 4, h1, chunk);
  }

  /**
   * Block-aligned chunking invariance: hashing `x`, whose length is a multiple
   * of 4, and then `y` leaves the same `H1` and `Length` as hashing `x + y`.
   */
  lemma UpdateAppend(s: State, x: seq<byte>, y: seq<byte>)
    requires |x| % 4 == 0
    ensures Update(Update(s, x), y) == Update(s, x + y)
  {
    AlignedMultiple(4, x, |x| / 4);
    BodyMixAligned(s.h1, x);
    BodyFoldAppend(MixBlock, TailMix, 4, s.h1, x, y);
    AddInt32Twice(s.length, |x|, |y|);
  }

  // ---------------------------------------------------------------------
  // The engine
  // ---------------------------------------------------------------------

  class Murmur32ManagedX86 {
    const seed: bv32
    var h1: bv32
    var length: int32

    function State(): State
      reads this
    {
      Murmur32.State(h1, length)
    }

    constructor(seed: bv32)
      ensures this.seed == seed && State() == Initial(seed)
    {
      this.seed := seed;
      new;
      Reset();
    }

    method Reset()
      modifies this
      ensures State() == Initial(seed)
    {
      h1 := seed;
      length := 0;
    }

    method Initialize()
      modifies this
      ensures State() == Initial(seed)
    {
      Reset();
    }

    method HashCore(buffer: array<byte>, ibStart: int, cbSize: int)
      requires 0 <= ibStart && 0 <= cbSize && ibStart + cbSize <= buffer.Length
      modifies this
      ensures State() == Update(old(State()), buffer[ibStart..ibStart + cbSize])
    {
      length := AddInt32(length, cbSize);
      Body(buffer, ibStart, cbSize);
    }

    method Body(data: array<byte>, start: int, count: int)
      requires 0 <= start && 0 <= count && start + count <= data.Length
      modifies this
      ensures h1 == BodyMix(old(h1), data[start..start + count]) && length == old(length)
    {
      hide TailMix, MixH1, BodyFold, Blocks, Aligned;
      ghost var d := data[..];
      var remainder := count % 4;  // `length & 3` on a non-negative length
      var alignedLength := start + (count - remainder);
      ghost var h0 := h1;
      var i := start;
      ghost var blocks := count / 4;
      BlocksStart(MixBlock, 4, h0, d, start);
      while i < alignedLength
        invariant start <= i <= alignedLength && alignedLength - i == 4 * blocks
        invariant Aligned(4, d[start..i]) && h1 == Blocks(MixBlock, 4, h0, d[start..i])
        invariant length == old(length)
      {
        BlocksStep(MixBlock, 4, h0, d, start, i);
        MixBlockAt(h1, d, i);
        h1 := MixH1(h1, ToUInt32(data[..], i));
        i := i + 4;
        blocks := blocks - 1;
      }
      BodyFoldAt(MixBlock, TailMix, 4, h0, d, start, alignedLength, start + count);
      if remainder > 0 {
        Tail(data, alignedLength, remainder);
      }
    }

    method Tail(tail: array<byte>, position: int, remainder: int)
      requires 0 < remainder < 4 && 0 <= position && position + remainder <= tail.Length
      modifies this
      ensures h1 == TailMix(old(h1), tail[position..position + remainder]) && length == old(length)
    {
      hide Word32, Padded, ToUInt32;
      var k1: bv32 := 0;
      // the fall-through switch of the source: case 3, then 2, then 1
      if remainder >= 3 {
        k1 := k1 ^ ((tail[position + 2] as bv32) << 16);
      }
      if remainder >= 2 {
        k1 := k1 ^ ((tail[position + 1] as bv32) << 8);
      }
      k1 := k1 ^ (tail[position] as bv32);
      ghost var t := tail[..];
      PaddedWord32(t, position, remainder, 4, 0);
      Word32Xor(TailByte(t, position, remainder, 0), TailByte(t, position, remainder, 1),
                TailByte(t, position, remainder, 2), TailByte(t, position, remainder, 3));
      assert k1 == TailKey(tail[position..position + remainder]);
      h1 := TailH1(h1, k1);
    }

    method HashFinal() returns (hash: seq<byte>)
      modifies this
      ensures State() == Final(old(State())) && hash == Digest(old(State()))
    {
      h1 := FinalH1(h1, UInt32Of(length));
      hash := GetBytes32(h1);
    }
  }
}
