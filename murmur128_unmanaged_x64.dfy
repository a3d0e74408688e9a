/**
 * `Murmur128UnmanagedX64`: MurmurHash3_x64_128 through pointers. `Body` pins
 * `&data[start]`, walks a `ulong*` cursor over the whole blocks, reading two
 * keys per block with `*current++`, and passes a pointer to the leftover bytes to
 * `Tail`; `HashFinal` stores `H1` and `H2` through a `ulong*` into a fresh
 * 16-byte array.
 *
 * A pointer into `data` is modelled as a byte offset into it, and a `ulong`
 * read through a pointer as the little-endian word at that offset (the
 * engine runs on little-endian hosts). The engine is proved against the same
 * functions as `Murmur128ManagedX64`, so the two compute the same hash.
 */
module UnmanagedX64 {
  import opened Primitives
  import opened BlockFold
  import opened Murmur128X64

  class Murmur128UnmanagedX64 {
    const seed: bv32
    var h1: bv64
    var h2: bv64
    var length: int32

    function Hashes(): Words
      reads this
    {
      Words(h1, h2)
    }

    function State(): State
      reads this
    {
      Murmur128X64.State(Hashes(), length)
    }

    constructor(seed: bv32)
      ensures this.seed == seed && State() == Initial(seed)
    {
      this.seed := seed;
      new;
      Reset();
    }

    /** Both accumulators take the `uint` seed, widened to `ulong`. */
    method Reset()
      modifies this
      ensures State() == Initial(seed)
    {
      h1, h2 := seed as bv64, seed as bv64;
      length := 0;
    }

    method Initialize()
      modifies this
      ensures State() == Initial(seed)
    {
      Reset();
    }

    /**
     * `faulted` is the `IndexOutOfRangeException` that pinning `&data[start]`
     * throws when the chunk starts at the end of the array, which happens
     * only for an empty chunk there; `Length += 0` has run by then, so the
     * state is what hashing the empty chunk would leave.
     */
    method HashCore(buffer: array<byte>, ibStart: int, cbSize: int) returns (faulted: bool)
      requires 0 <= ibStart && 0 <= cbSize && ibStart + cbSize <= buffer.Length
      modifies this
      ensures faulted <==> ibStart == buffer.Length
      ensures State() == Update(old(State()), buffer[ibStart..ibStart + cbSize])
    {
      hide BodyMix, BodyFold;
      length := AddInt32(length, cbSize);
      if ibStart == buffer.Length {
        assert buffer[ibStart..ibStart + cbSize] == [];
        UpdateEmpty(old(State()));
        return true;
      }
      Body(buffer, ibStart, cbSize);
      return false;
    }

    method Body(data: array<byte>, start: int, count: int)
      requires 0 <= start < data.Length && 0 <= count && start + count <= data.Length
      modifies this
      ensures Hashes() == BodyMix(old(Hashes()), data[start..start + count]) && length == old(length)
    {
      hide TailMix, BodyFold, Blocks, Aligned, MixBlock, MixKeys, ToUInt64;
      ghost var d := data[..];
      var remainder := count % 16;  // `length & 15` on a non-negative length
      var blocks := count / 16;
      ghost var w0 := Hashes();
      var current := start;  // the `ulong*` cursor, as an offset into `data`
      BlocksStart(MixBlock, 16, w0, d, start);
      while blocks > 0
        invariant start <= current && current + 16 * blocks == start + (count - remainder) && 0 <= blocks
        invariant Aligned(16, d[start..current]) && Hashes() == Blocks(MixBlock, 16, w0, d[start..current])
        invariant length == old(length)
      {
        blocks := blocks - 1;
        BlocksStep(MixBlock, 16, w0, d, start, current);
        MixBlockAt(Hashes(), d, current);
        current := MixNextBlock(data, current);
      }
      BodyFoldAt(MixBlock, TailMix, 16, w0, d, start, current, start + count);
      if remainder > 0 {
        Tail(data, start + (count - remainder), remainder);
      }
    }

    /**
     * One pass of `Body`'s loop: two keys read through the cursor `*current++`,
     * each mixed into its accumulator as it is read.
     */
    method MixNextBlock(data: array<byte>, current: int) returns (next: int)
      requires 0 <= current && current + 16 <= data.Length
      modifies this
      ensures next == current + 16 && length == old(length)
      ensures Hashes() == MixKeys(old(Hashes()), ToUInt64(data[..], current), ToUInt64(data[..], current + 8))
    {
      hide Add64, Mul5x64, Rotl64, Xor64, ScrambleK1, ScrambleK2, ToUInt64;
      next := current;
      h1 := Xor64(h1, ScrambleK1(ToUInt64(data[..], next)));
      next := next + 8;
      h1 := Add64(Mul5x64(Add64(Rotl64(h1, 27), h2)), 0x52dce729);

      h2 := Xor64(h2, ScrambleK2(ToUInt64(data[..], next)));
      next := next + 8;
      h2 := Add64(Mul5x64(Add64(Rotl64(h2, 31), h1)), 0x38495ab5);
    }

    /** `Tail(byte* tail, int remaining)`, with `tail` the offset of the leftover bytes in `data`. */
    method Tail(data: array<byte>, tail: int, remaining: int)
      requires 0 < remaining < 16 && 0 <= tail && tail + remaining <= data.Length
      modifies this
      ensures Hashes() == TailMix(old(Hashes()), data[tail..tail + remaining]) && length == old(length)
    {
      hide Xor64, ScrambleK1, ScrambleK2, ToUInt64, Padded;
      var k2 := ReadTailKey(data, tail, remaining, 8);
      var k1 := ReadTailKey(data, tail, remaining, 0);
      h2 := Xor64(h2, ScrambleK2(k2));
      h1 := Xor64(h1, ScrambleK1(k1));
    }

    /** The digest is stored as `r[0] = H1`, `r[1] = H2` through a `ulong*` over the new array. */
    method HashFinal() returns (result: array<byte>)
      modifies this
      ensures fresh(result) && result[..] == Digest(old(State()))
      ensures State() == Final(old(State()))
    {
      hide Xor64, Add64, FMix64, GetBytes64;
      var len := UInt64Of(length);
      h1 := Xor64(h1, len);
      h2 := Xor64(h2, len);

      h1 := Add64(h1, h2);
      h2 := Add64(h2, h1);

      h1 := FMix64(h1);
      h2 := FMix64(h2);

      h1 := Add64(h1, h2);
      h2 := Add64(h2, h1);

      result := new byte[16];
      StoreWords(result, Hashes());
    }
  }

  /** The two stores `r[0] = H1`, `r[1] = H2` through a `ulong*` over the 16-byte result. */
  method StoreWords(r: array<byte>, w: Words)
    requires r.Length == 16
    modifies r
    ensures r[..] == WordsBytes(w)
  {
    StoreUInt64(r, 0, w.h1);
    StoreUInt64(r, 8, w.h2);
    assert r[..] == r[0..8] + r[8..16];
  }

  /**
   * `*(ulong*)(r + i) = x` on a little-endian host: the bytes of `x` at `i`,
   * stored here one at a time, and nothing else changed.
   */
  method StoreUInt64(r: array<byte>, i: int, x: bv64)
    requires 0 <= i && i + 8 <= r.Length
    modifies r
    ensures r[i..i + 8] == GetBytes64(x)
    ensures forall j :: 0 <= j < r.Length && !(i <= j < i + 8) ==> r[j] == old(r[j])
  {
    var bytes := GetBytes64(x);
    for k := 0 to 8
      invariant r[i..i + k] == bytes[..k]
      invariant forall j :: 0 <= j < r.Length && !(i <= j < i + k) ==> r[j] == old(r[j])
    {
      r[i + k] := bytes[k];
    }
  }
}
