/**
 * The `Murmur32` base class: the state every 32-bit MurmurHash3 engine keeps
 * (one accumulator `H1`, the running `Length` and the immutable seed), the two
 * key-scrambling constants, and `HashFinal`, which folds in the length, applies
 * fmix32 and serialises `H1` as a 4-byte little-endian digest.
 */
module Murmur32 {
  import opened Primitives

  // The two key constants, `C1 = 0xcc9e2d51` and `C2 = 0x1b873593`, as the
  // multiplications the engines apply them in, with their inverses modulo 2^32.

  function MulC1(x: bv32): bv32 { x * 0xcc9e2d51 }
  function MulC2(x: bv32): bv32 { x * 0x1b873593 }
  function UnMulC1(x: bv32): bv32 { x * 0xdee13bb1 }
  function UnMulC2(x: bv32): bv32 { x * 0x56ed309b }

  lemma MulCProducts(x: bv32)
    ensures UnMulC1(x * 0xcc9e2d51) == x && UnMulC2(x * 0x1b873593) == x
  {
  }

  lemma MulCInverses(x: bv32)
    ensures UnMulC1(MulC1(x)) == x && UnMulC2(MulC2(x)) == x
  {
    MulCProducts(x);
  }

  /** `HashSize`: the digest has 32 bits. */
  const HashSize: nat := 32

  /** The mutable part of an engine: `H1` and the number of bytes hashed so far. */
  datatype State = State(h1: bv32, length: int32)

  /** The state `Reset` establishes: `H1` holds the seed and nothing has been hashed. */
  function Initial(seed: bv32): State {
    State(seed, 0)
  }

  /** `HashFinal`'s one update, `H1 := fmix32(H1 ^ len)`, where `len` is `(uint)Length`. */
  function FinalH1(h1: bv32, len: bv32): bv32 {
    FMix32(Xor(h1, len))
  }

  /** The state `HashFinal` leaves behind. */
  function Final(s: State): (r: State)
    ensures r.length == s.length
  {
    State(FinalH1(s.h1, UInt32Of(s.length)), s.length)
  }

  /** The bytes `HashFinal` returns: the new `H1`, least significant byte first. */
  function Digest(s: State): (d: seq<byte>)
    ensures |d| * 8 == HashSize
  {
    GetBytes32(Final(s).h1)
  }

  /** The digest is exactly the little-endian encoding of the final `H1`. */
  lemma DigestDecodes(s: State)
    ensures ToUInt32(Digest(s), 0) == Final(s).h1
    ensures Digest(s) == GetBytes32(Final(s).h1)
  {
    GetBytes32RoundTrip(Final(s).h1);
  }

  /** For a fixed length, finalisation permutes `H1`: `fmix32` and the XOR can both be undone. */
  lemma FinalH1Inverse(h1: bv32, len: bv32)
    ensures Xor(UnFMix32(FinalH1(h1, len)), len) == h1
  {
    FMix32Bijective(Xor(h1, len));
    XorInverse(h1, len);
  }

  lemma FinalH1Injective(a: bv32, b: bv32, len: bv32)
    requires FinalH1(a, len) == FinalH1(b, len)
    ensures a == b
  {
    FMix32Injective(Xor(a, len), Xor(b, len));
    XorInverse(a, len);
    XorInverse(b, len);
  }

  /**
   * `HashFinal` loses nothing: from the final `H1` and the length, the
   * accumulator before finalisation is recovered.
   */
  lemma FinalRecoversH1(s: State)
    ensures Xor(UnFMix32(Final(s).h1), UInt32Of(s.length)) == s.h1
  {
    FinalH1Inverse(s.h1, UInt32Of(s.length));
  }

  /** Two states that hashed the same number of bytes have equal digests only if their `H1` agree. */
  lemma DigestInjective(s: State, t: State)
    requires s.length == t.length && Digest(s) == Digest(t)
    ensures s.h1 == t.h1
  {
    DigestDecodes(s);
    DigestDecodes(t);
    FinalH1Injective(s.h1, t.h1, UInt32Of(s.length));
  }

  /** With nothing hashed the digest depends on the seed alone: it is fmix32 of the seed. */
  lemma EmptyDigest(seed: bv32)
    ensures Digest(Initial(seed)) == GetBytes32(FMix32(seed))
  {
    assert UInt32Of(0) == 0;
    assert Xor(seed, 0) == seed;
  }
}
