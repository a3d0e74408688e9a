/**
 * `Murmur128ManagedX64`: MurmurHash3_x64_128 over managed arrays. `HashCore`
 * counts the chunk into `Length` and runs `Body`, which reads each 16-byte
 * block as two keys with `ToUInt64` at offsets `i` and `i + 8` and mixes them
 * into `H1` and `H2`, then hands the leftover bytes to `Tail`.
 */
module ManagedX64 {
  import opened Primitives
  import opened BlockFold
  import opened Murmur128X64

  class Murmur128ManagedX64 {
    const seed: bv32
    var h1: bv64
    var h2: bv64
    var length: int32

    function Hashes(): Words
      reads this
    {
      Words(h1, h2)
    }

    function State(): State
      reads this
    {
      Murmur128X64.State(Hashes(), length)
    }

    constructor(seed: bv32)
      ensures this.seed == seed && State() == Initial(seed)
    {
      this.seed := seed;
      new;
      Reset();
    }

    /** Both accumulators take the `uint` seed, widened to `ulong`. */
    method Reset()
      modifies this
      ensures State() == Initial(seed)
    {
      h1, h2 := seed as bv64, seed as bv64;
      length := 0;
    }

    method Initialize()
      modifies this
      ensures State() == Initial(seed)
    {
      Reset();
    }

    method HashCore(buffer: array<byte>, ibStart: int, cbSize: int)
      requires 0 <= ibStart && 0 <= cbSize && ibStart + cbSize <= buffer.Length
      modifies this
      ensures State() == Update(old(State()), buffer[ibStart..ibStart + cbSize])
    {
      length := AddInt32(length, cbSize);
      Body(buffer, ibStart, cbSize);
    }

    method Body(data: array<byte>, start: int, count: int)
      requires 0 <= start && 0 <= count && start + count <= data.Length
      modifies this
      ensures Hashes() == BodyMix(old(Hashes()), data[start..start + count]) && length == old(length)
    {
      hide TailMix, BodyFold, Blocks, Aligned, MixBlock, MixKeys, ToUInt64;
      ghost var d := data[..];
      var remainder := count % 16;  // `length & 15` on a non-negative length
      var alignedLength := start + (count - remainder);
      ghost var w0 := Hashes();
      var i := start;
      ghost var blocks := count / 16;
      BlocksStart(MixBlock, 16, w0, d, start);
      while i < alignedLength
        invariant start <= i <= alignedLength && alignedLength - i == 16 * blocks
        invariant Aligned(16, d[start..i]) && Hashes() == Blocks(MixBlock, 16, w0, d[start..i])
        invariant length == old(length)
      {
        BlocksStep(MixBlock, 16, w0, d, start, i);
        MixBlockAt(Hashes(), d, i);
        var k1, k2 := ToUInt64(data[..], i), ToUInt64(data[..], i + 8);
        MixRounds(k1, k2);
        i := i + 16;
        blocks := blocks - 1;
      }
      BodyFoldAt(MixBlock, TailMix, 16, w0, d, start, alignedLength, start + count);
      if remainder > 0 {
        Tail(data, alignedLength, remainder);
      }
    }

    /** The four statements of one loop iteration of `Body`, in the order the source runs them. */
    method MixRounds(k1: bv64, k2: bv64)
      modifies this
      ensures Hashes() == MixKeys(old(Hashes()), k1, k2) && length == old(length)
    {
      hide Add64, Mul5x64, Rotl64, Xor64, ScrambleK1, ScrambleK2;
      h1 := Xor64(h1, ScrambleK1(k1));
      h1 := Add64(Mul5x64(Add64(Rotl64(h1, 27), h2)), 0x52dce729);
      h2 := Xor64(h2, ScrambleK2(k2));
      h2 := Add64(Mul5x64(Add64(Rotl64(h2, 31), h1)), 0x38495ab5);
    }

    method Tail(tail: array<byte>, start: int, remaining: int)
      requires 0 < remaining < 16 && 0 <= start && start + remaining <= tail.Length
      modifies this
      ensures Hashes() == TailMix(old(Hashes()), tail[start..start + remaining]) && length == old(length)
    {
      hide Xor64, ScrambleK1, ScrambleK2, ToUInt64, Padded;
      var k2 := ReadTailKey(tail, start, remaining, 8);
      var k1 := ReadTailKey(tail, start, remaining, 0);
      h2 := Xor64(h2, ScrambleK2(k2));
      h1 := Xor64(h1, ScrambleK1(k1));
    }

    method HashFinal() returns (hash: seq<byte>)
      modifies this
      ensures State() == Final(old(State())) && hash == Digest(old(State()))
    {
      hide Xor64, Add64, FMix64, GetBytes64;
      var len := UInt64Of(length);
      h1 := Xor64(h1, len);
      h2 := Xor64(h2, len);

      h1 := Add64(h1, h2);
      h2 := Add64(h2, h1);

      h1 := FMix64(h1);
      h2 := FMix64(h2);

      h1 := Add64(h1, h2);
      h2 := Add64(h2, h1);

      hash := GetBytes64(h1) + GetBytes64(h2);
    }
  }
}
