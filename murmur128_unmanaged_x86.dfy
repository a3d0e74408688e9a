/**
 * `Murmur128UnmanagedX86`: MurmurHash3_x86_128 through pointers. `Body` pins
 * `&data[start]`, walks a `uint*` cursor over the whole blocks, reading four
 * keys per block with `*b++`, and passes a pointer to the leftover bytes to
 * `Tail`; `HashFinal` stores `H1`..`H4` through a `uint*` into a fresh
 * 16-byte array.
 *
 * A pointer into `data` is modelled as a byte offset into it, and a `uint`
 * read through a pointer as the little-endian word at that offset (the
 * engine runs on little-endian hosts). The engine is proved against the same
 * functions as `Murmur128ManagedX86`, so the two compute the same hash.
 */
module UnmanagedX86 {
  import opened Primitives
  import opened BlockFold
  import opened Murmur128X86

  class Murmur128UnmanagedX86 {
    const seed: bv32
    var h1: bv32
    var h2: bv32
    var h3: bv32
    var h4: bv32
    var length: int32

    function Hashes(): Words
      reads this
    {
      Words(h1, h2, h3, h4)
    }

    function State(): State
      reads this
    {
      Murmur128X86.State(Hashes(), length)
    }

    constructor(seed: bv32)
      ensures this.seed == seed && State() == Initial(seed)
    {
      this.seed := seed;
      new;
      Reset();
    }

    method Reset()
      modifies this
      ensures State() == Initial(seed)
    {
      h1, h2, h3, h4 := seed, seed, seed, seed;
      length := 0;
    }

    method Initialize()
      modifies this
      ensures State() == Initial(seed)
    {
      Reset();
    }

    /**
     * `faulted` is the `IndexOutOfRangeException` that pinning `&data[start]`
     * throws when the chunk starts at the end of the array, which happens
     * only for an empty chunk there; `Length += 0` has run by then, so the
     * state is what hashing the empty chunk would leave.
     */
    method HashCore(buffer: array<byte>, ibStart: int, cbSize: int) returns (faulted: bool)
      requires 0 <= ibStart && 0 <= cbSize && ibStart + cbSize <= buffer.Length
      modifies this
      ensures faulted <==> ibStart == buffer.Length
      ensures State() == Update(old(State()), buffer[ibStart..ibStart + cbSize])
    {
      hide BodyMix, BodyFold;
      length := AddInt32(length, cbSize);
      if ibStart == buffer.Length {
        assert buffer[ibStart..ibStart + cbSize] == [];
        UpdateEmpty(old(State()));
        return true;
      }
      Body(buffer, ibStart, cbSize);
      return false;
    }

    method Body(data: array<byte>, start: int, count: int)
      requires 0 <= start < data.Length && 0 <= count && start + count <= data.Length
      modifies this
      ensures Hashes() == BodyMix(old(Hashes()), data[start..start + count]) && length == old(length)
    {
      hide TailMix, BodyFold, Blocks, Aligned, MixBlock, MixKeys, ToUInt32;
      ghost var d := data[..];
      var remainder := count % 16;  // `length & 15` on a non-negative length
      var blocks := count / 16;
      ghost var w0 := Hashes();
      var b := start;  // the `uint*` cursor, as an offset into `data`
      BlocksStart(MixBlock, 16, w0, d, start);
      while blocks > 0
        invariant start <= b && b + 16 * blocks == start + (count - remainder) && 0 <= blocks
        invariant Aligned(16, d[start..b]) && Hashes() == Blocks(MixBlock, 16, w0, d[start..b])
        invariant length == old(length)
      {
        blocks := blocks - 1;
        BlocksStep(MixBlock, 16, w0, d, start, b);
        MixBlockAt(Hashes(), d, b);
        b := MixNextBlock(data, b);
      }
      BodyFoldAt(MixBlock, TailMix, 16, w0, d, start, b, start + count);
      if remainder > 0 {
        Tail(data, start + (count - remainder), remainder);
      }
    }

    /**
     * One pass of `Body`'s loop: four keys read through the cursor `*b++`,
     * each mixed into its accumulator as it is read.
     */
    method MixNextBlock(data: array<byte>, b: int) returns (next: int)
      requires 0 <= b && b + 16 <= data.Length
      modifies this
      ensures next == b + 16 && length == old(length)
      ensures Hashes() == MixKeys(old(Hashes()), ToUInt32(data[..], b), ToUInt32(data[..], b + 4), ToUInt32(data[..], b + 8), ToUInt32(data[..], b + 12))
    {
      hide Add, Mul5, Rotl, Xor, ScrambleK1, ScrambleK2, ScrambleK3, ScrambleK4, ToUInt32;
      next := b;
      h1 := Xor(h1, ScrambleK1(ToUInt32(data[..], next)));
      next := next + 4;
      h1 := Add(Mul5(Add(Rotl(h1, 19), h2)), 0x561ccd1b);

      h2 := Xor(h2, ScrambleK2(ToUInt32(data[..], next)));
      next := next + 4;
      h2 := Add(Mul5(Add(Rotl(h2, 17), h3)), 0x0bcaa747);

      h3 := Xor(h3, ScrambleK3(ToUInt32(data[..], next)));
      next := next + 4;
      h3 := Add(Mul5(Add(Rotl(h3, 15), h4)), 0x96cd1c35);

      h4 := Xor(h4, ScrambleK4(ToUInt32(data[..], next)));
      next := next + 4;
      h4 := Add(Mul5(Add(Rotl(h4, 13), h1)), 0x32ac3b17);
    }

    /** `Tail(byte* tail, int remainder)`, with `tail` the offset of the leftover bytes in `data`. */
    method Tail(data: array<byte>, tail: int, remainder: int)
      requires 0 < remainder < 16 && 0 <= tail && tail + remainder <= data.Length
      modifies this
      ensures Hashes() == TailMix(old(Hashes()), data[tail..tail + remainder]) && length == old(length)
    {
      hide Xor, ScrambleK1, ScrambleK2, ScrambleK3, ScrambleK4, ToUInt32, Padded;
      var k4 := ReadTailKey(data, tail, remainder, 12);
      var k3 := ReadTailKey(data, tail, remainder, 8);
      var k2 := ReadTailKey(data, tail, remainder, 4);
      var k1 := ReadTailKey(data, tail, remainder, 0);
      h4 := Xor(h4, ScrambleK4(k4));
      h3 := Xor(h3, ScrambleK3(k3));
      h2 := Xor(h2, ScrambleK2(k2));
      h1 := Xor(h1, ScrambleK1(k1));
    }

    /** The digest is stored as `r[0] = H1` .. `r[3] = H4` through a `uint*` over the new array. */
    method HashFinal() returns (result: array<byte>)
      modifies this
      ensures fresh(result) && result[..] == Digest(old(State()))
      ensures State() == Final(old(State()))
    {
      hide Xor, Add, FMix32, GetBytes32;
      var len := UInt32Of(length);
      h1 := Xor(h1, len);
      h2 := Xor(h2, len);
      h3 := Xor(h3, len);
      h4 := Xor(h4, len);

      h1 := Add(h1, Add(Add(h2, h3), h4));
      h2 := Add(h2, h1);
      h3 := Add(h3, h1);
      h4 := Add(h4, h1);

      h1 := FMix32(h1);
      h2 := FMix32(h2);
      h3 := FMix32(h3);
      h4 := FMix32(h4);

      h1 := Add(h1, Add(Add(h2, h3), h4));
      h2 := Add(h2, h1);
      h3 := Add(h3, h1);
      h4 := Add(h4, h1);

      result := new byte[16];
      StoreWords(result, Hashes());
    }
  }

  /** The four stores `r[0] = H1` .. `r[3] = H4` through a `uint*` over the 16-byte result. */
  method StoreWords(r: array<byte>, w: Words)
    requires r.Length == 16
    modifies r
    ensures r[..] == WordsBytes(w)
  {
    StoreUInt32(r, 0, w.h1);
    StoreUInt32(r, 4, w.h2);
    StoreUInt32(r, 8, w.h3);
    StoreUInt32(r, 12, w.h4);
    assert r[..] == r[0..4] + r[4..8] + r[8..12] + r[12..16];
  }

  /** `*(uint*)(r + i) = x` on a little-endian host: the bytes of `x` at `i`, nothing else changed. */
  method StoreUInt32(r: array<byte>, i: int, x: bv32)
    requires 0 <= i && i + 4 <= r.Length
    modifies r
    ensures r[i..i + 4] == GetBytes32(x)
    ensures forall j :: 0 <= j < r.Length && !(i <= j < i + 4) ==> r[j] == old(r[j])
  {
    var bytes := GetBytes32(x);
    r[i], r[i + 1], r[i + 2], r[i + 3] := bytes[0], bytes[1], bytes[2], bytes[3];
  }
}
