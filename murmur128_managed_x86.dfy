/**
 * `Murmur128ManagedX86`: MurmurHash3_x86_128 over managed arrays. `HashCore`
 * counts the chunk into `Length` and runs `Body`, which reads each 16-byte
 * block as four keys with `ToUInt32` at offsets `i`, `i + 4`, `i + 8` and
 * `i + 12` and mixes them into `H1`..`H4`, then hands the leftover bytes to
 * `Tail`.
 */
module ManagedX86 {
  import opened Primitives
  import opened BlockFold
  import opened Murmur128X86

  class Murmur128ManagedX86 {
    const seed: bv32
    var h1: bv32
    var h2: bv32
    var h3: bv32
    var h4: bv32
    var length: int32

    function Hashes(): Words
      reads this
    {
      Words(h1, h2, h3, h4)
    }

    function State(): State
      reads this
    {
      Murmur128X86.State(Hashes(), length)
    }

    constructor(seed: bv32)
      ensures this.seed == seed && State() == Initial(seed)
    {
      this.seed := seed;
      new;
      Reset();
    }

    method Reset()
      modifies this
      ensures State() == Initial(seed)
    {
      h1, h2, h3, h4 := seed, seed, seed, seed;
      length := 0;
    }

    method Initialize()
      modifies this
      ensures State() == Initial(seed)
    {
      Reset();
    }

    method HashCore(buffer: array<byte>, ibStart: int, cbSize: int)
      requires 0 <= ibStart && 0 <= cbSize && ibStart + cbSize <= buffer.Length
      modifies this
      ensures State() == Update(old(State()), buffer[ibStart..ibStart + cbSize])
    {
      length := AddInt32(length, cbSize);
      Body(buffer, ibStart, cbSize);
    }

    method Body(data: array<byte>, start: int, count: int)
      requires 0 <= start && 0 <= count && start + count <= data.Length
      modifies this
      ensures Hashes() == BodyMix(old(Hashes()), data[start..start + count]) && length == old(length)
    {
      hide TailMix, BodyFold, Blocks, Aligned, MixBlock, MixKeys, ToUInt32;
      ghost var d := data[..];
      var remainder := count % 16;  // `length & 15` on a non-negative length
      var alignedLength := start + (count - remainder);
      ghost var w0 := Hashes();
      var i := start;
      ghost var blocks := count / 16;
      BlocksStart(MixBlock, 16, w0, d, start);
      while i < alignedLength
        invariant start <= i <= alignedLength && alignedLength - i == 16 * blocks
        invariant Aligned(16, d[start..i]) && Hashes() == Blocks(MixBlock, 16, w0, d[start..i])
        invariant length == old(length)
      {
        BlocksStep(MixBlock, 16, w0, d, start, i);
        MixBlockAt(Hashes(), d, i);
        var k1, k2, k3, k4 := ToUInt32(data[..], i), ToUInt32(data[..], i + 4), ToUInt32(data[..], i + 8), ToUInt32(data[..], i + 12);
        MixRounds(k1, k2, k3, k4);
        i := i + 16;
        blocks := blocks - 1;
      }
      BodyFoldAt(MixBlock, TailMix, 16, w0, d, start, alignedLength, start + count);
      if remainder > 0 {
        Tail(data, alignedLength, remainder);
      }
    }

    /** The eight statements of one loop iteration of `Body`, in the order the source runs them. */
    method MixRounds(k1: bv32, k2: bv32, k3: bv32, k4: bv32)
      modifies this
      ensures Hashes() == MixKeys(old(Hashes()), k1, k2, k3, k4) && length == old(length)
    {
      hide Add, Mul5, Rotl, Xor, ScrambleK1, ScrambleK2, ScrambleK3, ScrambleK4;
      h1 := Xor(h1, ScrambleK1(k1));
      h1 := Add(Mul5(Add(Rotl(h1, 19), h2)), 0x561ccd1b);
      h2 := Xor(h2, ScrambleK2(k2));
      h2 := Add(Mul5(Add(Rotl(h2, 17), h3)), 0x0bcaa747);
      h3 := Xor(h3, ScrambleK3(k3));
      h3 := Add(Mul5(Add(Rotl(h3, 15), h4)), 0x96cd1c35);
      h4 := Xor(h4, ScrambleK4(k4));
      h4 := Add(Mul5(Add(Rotl(h4, 13), h1)), 0x32ac3b17);
    }

    method Tail(tail: array<byte>, position: int, remainder: int)
      requires 0 < remainder < 16 && 0 <= position && position + remainder <= tail.Length
      modifies this
      ensures Hashes() == TailMix(old(Hashes()), tail[position..position + remainder]) && length == old(length)
    {
      hide Xor, ScrambleK1, ScrambleK2, ScrambleK3, ScrambleK4, ToUInt32, Padded;
      var k4 := ReadTailKey(tail, position, remainder, 12);
      var k3 := ReadTailKey(tail, position, remainder, 8);
      var k2 := ReadTailKey(tail, position, remainder, 4);
      var k1 := ReadTailKey(tail, position, remainder, 0);
      h4 := Xor(h4, ScrambleK4(k4));
      h3 := Xor(h3, ScrambleK3(k3));
      h2 := Xor(h2, ScrambleK2(k2));
      h1 := Xor(h1, ScrambleK1(k1));
    }

    method HashFinal() returns (hash: seq<byte>)
      modifies this
      ensures State() == Final(old(State())) && hash == Digest(old(State()))
    {
      hide Xor, Add, FMix32, GetBytes32;
      var len := UInt32Of(length);
      h1 := Xor(h1, len);
      h2 := Xor(h2, len);
      h3 := Xor(h3, len);
      h4 := Xor(h4, len);

      h1 := Add(h1, Add(Add(h2, h3), h4));
      h2 := Add(h2, h1);
      h3 := Add(h3, h1);
      h4 := Add(h4, h1);

      h1 := FMix32(h1);
      h2 := FMix32(h2);
      h3 := FMix32(h3);
      h4 := FMix32(h4);

      h1 := Add(h1, Add(Add(h2, h3), h4));
      h2 := Add(h2, h1);
      h3 := Add(h3, h1);
      h4 := Add(h4, h1);

      hash := GetBytes32(h1) + GetBytes32(h2) + GetBytes32(h3) + GetBytes32(h4);
    }
  }
}
