/**
 * Word-level primitives shared by every MurmurHash3 engine: the C# integer
 * conversions the engines rely on, the finalisation avalanche (`fmix`) of the
 * MurmurHash3 reference, and little-endian reads and writes of machine words
 * (`BitConverter.ToUInt32`/`ToUInt64` and `BitConverter.GetBytes` on a
 * little-endian host).
 *
 * Rotation is Dafny's built-in `RotateLeft` on `bv32`/`bv64`, which is the
 * reference's ROTL32/ROTL64.
 */
module Primitives {

  type byte = bv8

  /** The values of a C# `int`. */
  type int32 = x: int | -0x8000_0000 <= x < 0x8000_0000

  const TwoTo32: int := 0x1_0000_0000
  const TwoTo64: int := 0x1_0000_0000_0000_0000

  /** `a + b` in C#'s default unchecked context: wraps around modulo 2^32. */
  function AddInt32(a: int32, b: int): (r: int32)
    ensures (r - (a + b)) % TwoTo32 == 0
    ensures -0x8000_0000 <= a + b < 0x8000_0000 ==> r == a + b
  {
    (a + b + 0x8000_0000) % TwoTo32 - 0x8000_0000
  }

  /** Wrapping is associative: adding `x` then `y` is adding `x + y`. */
  lemma AddInt32Twice(a: int32, x: int, y: int)
    ensures AddInt32(AddInt32(a, x), y) == AddInt32(a, x + y)
  {
    var m := a + x + 0x8000_0000;
    var q := m / TwoTo32;
    assert AddInt32(a, x) == m - q * TwoTo32 - 0x8000_0000;
    assert AddInt32(AddInt32(a, x), y) == (m + y - q * TwoTo32) % TwoTo32 - 0x8000_0000;
    ModShift(m + y, q);
  }

  lemma ModShift(v: int, q: int)
    ensures (v - q * TwoTo32) % TwoTo32 == v % TwoTo32
  {
    var w := v - q * TwoTo32;
    assert v == w + q * TwoTo32;
    assert (w + q * TwoTo32) % TwoTo32 == w % TwoTo32 by {
      if q >= 0 { ModAddMultiple(w, q); } else { ModAddMultiple(v, -q); }
    }
  }

  lemma {:induction false} ModAddMultiple(w: int, q: nat)
    ensures (w + q * TwoTo32) % TwoTo32 == w % TwoTo32
  {
    if q > 0 {
      ModAddMultiple(w, q - 1);
      assert w + q * TwoTo32 == (w + (q - 1) * TwoTo32) + TwoTo32;
    }
  }

  /** `(uint)x` for a C# `int`: the same 32 bits read as unsigned, i.e. `x` modulo 2^32. */
  function UInt32Of(x: int32): bv32 {
    (x % TwoTo32) as bv32
  }

  /**
   * `(ulong)x` for a C# `int`. C# converts a negative `int` to `ulong` by sign
   * extension: `x` modulo 2^64, so a negative value gets its upper 32 bits set.
   */
  function UInt64Of(x: int32): bv64 {
    (x % TwoTo64) as bv64
  }

  // ---------------------------------------------------------------------
  // Finalisation avalanche of MurmurHash3 (fmix32 and fmix64)
  // ---------------------------------------------------------------------

  // Each step of fmix is a function of its own, so that the proofs below can
  // undo one step at a time.

  function XorShift16(x: bv32): bv32 { x ^ (x >> 16) }
  function XorShift13(x: bv32): bv32 { x ^ (x >> 13) }
  function Mul85ebca6b(x: bv32): bv32 { x * 0x85ebca6b }
  function Mulc2b2ae35(x: bv32): bv32 { x * 0xc2b2ae35 }

  /** fmix32 of the MurmurHash3 reference. */
  function FMix32(h: bv32): bv32 {
    XorShift16(Mulc2b2ae35(XorShift13(Mul85ebca6b(XorShift16(h)))))
  }

  // The inverse steps: a multiplication by an odd constant is undone by the
  // constant's inverse modulo 2^32, and `x ^ (x >> 13)` by folding in the
  // shifts by 13 and 26.

  function UnXorShift13(x: bv32): bv32 { x ^ (x >> 13) ^ (x >> 26) }
  function UnMul85ebca6b(x: bv32): bv32 { x * 0xa5cb9243 }
  function UnMulc2b2ae35(x: bv32): bv32 { x * 0x7ed1b41d }

  function UnFMix32(h: bv32): bv32 {
    XorShift16(UnMul85ebca6b(UnXorShift13(UnMulc2b2ae35(XorShift16(h)))))
  }

  lemma XorShift16Involutive(x: bv32)
    ensures XorShift16(XorShift16(x)) == x
  {
    assert XorShift16(x) == x ^ (x >> 16);
    assert XorShift16(XorShift16(x)) == (x ^ (x >> 16)) ^ ((x ^ (x >> 16)) >> 16);
  }

  lemma XorShift13Inverse(x: bv32)
    ensures UnXorShift13(XorShift13(x)) == x
  {
    assert XorShift13(x) == x ^ (x >> 13);
    assert UnXorShift13(XorShift13(x)) == (x ^ (x >> 13)) ^ ((x ^ (x >> 13)) >> 13) ^ ((x ^ (x >> 13)) >> 26);
  }

  lemma UnXorShift13Inverse(x: bv32)
    ensures XorShift13(UnXorShift13(x)) == x
  {
    assert UnXorShift13(x) == x ^ (x >> 13) ^ (x >> 26);
    assert XorShift13(UnXorShift13(x)) == (x ^ (x >> 13) ^ (x >> 26)) ^ ((x ^ (x >> 13) ^ (x >> 26)) >> 13);
  }

  lemma Mul32Products(x: bv32)
    ensures UnMul85ebca6b(x * 0x85ebca6b) == x && Mul85ebca6b(x * 0xa5cb9243) == x
    ensures UnMulc2b2ae35(x * 0xc2b2ae35) == x && Mulc2b2ae35(x * 0x7ed1b41d) == x
  {
  }

  lemma Mul32Inverses(x: bv32)
    ensures UnMul85ebca6b(Mul85ebca6b(x)) == x && Mul85ebca6b(UnMul85ebca6b(x)) == x
    ensures UnMulc2b2ae35(Mulc2b2ae35(x)) == x && Mulc2b2ae35(UnMulc2b2ae35(x)) == x
  {
    Mul32Products(x);
  }

  /** fmix32 is a bijection on 32-bit words, with `UnFMix32` its inverse. */
  lemma FMix32Bijective(h: bv32)
    ensures UnFMix32(FMix32(h)) == h
    ensures FMix32(UnFMix32(h)) == h
  {
    var a := XorShift16(h);
    var b := Mul85ebca6b(a);
    var c := XorShift13(b);
    var d := Mulc2b2ae35(c);
    XorShift16Involutive(d);
    Mul32Inverses(c);
    XorShift13Inverse(b);
    Mul32Inverses(a);
    XorShift16Involutive(h);
    var d' := XorShift16(h);
    var c' := UnMulc2b2ae35(d');
    var b' := UnXorShift13(c');
    var a' := UnMul85ebca6b(b');
    XorShift16Involutive(a');
    Mul32Inverses(b');
    UnXorShift13Inverse(c');
    Mul32Inverses(d');
  }

  /** fmix32 loses no information: distinct inputs give distinct outputs. */
  lemma FMix32Injective(a: bv32, b: bv32)
    ensures FMix32(a) == FMix32(b) ==> a == b
  {
    FMix32Bijective(a);
    FMix32Bijective(b);
  }

  function XorShift33(x: bv64): bv64 { x ^ (x >> 33) }
  function Mulff51afd7ed558ccd(x: bv64): bv64 { x * 0xff51afd7ed558ccd }
  function Mulc4ceb9fe1a85ec53(x: bv64): bv64 { x * 0xc4ceb9fe1a85ec53 }

  /** fmix64 of the MurmurHash3 reference. */
  function FMix64(k: bv64): bv64 {
    XorShift33(Mulc4ceb9fe1a85ec53(XorShift33(Mulff51afd7ed558ccd(XorShift33(k)))))
  }

  function UnMulff51afd7ed558ccd(x: bv64): bv64 { x * 0x4f74430c22a54005 }
  function UnMulc4ceb9fe1a85ec53(x: bv64): bv64 { x * 0x9cb4b2f8129337db }

  /** The inverse of `FMix64`; a shift by 33 of a 64-bit word undoes itself. */
  function UnFMix64(k: bv64): bv64 {
    XorShift33(UnMulff51afd7ed558ccd(XorShift33(UnMulc4ceb9fe1a85ec53(XorShift33(k)))))
  }

  lemma XorShift33Involutive(x: bv64)
    ensures XorShift33(XorShift33(x)) == x
  {
    assert XorShift33(x) == x ^ (x >> 33);
    assert XorShift33(XorShift33(x)) == (x ^ (x >> 33)) ^ ((x ^ (x >> 33)) >> 33);
  }

  lemma Mul64Products(x: bv64)
    ensures UnMulff51afd7ed558ccd(x * 0xff51afd7ed558ccd) == x && Mulff51afd7ed558ccd(x * 0x4f74430c22a54005) == x
    ensures UnMulc4ceb9fe1a85ec53(x * 0xc4ceb9fe1a85ec53) == x && Mulc4ceb9fe1a85ec53(x * 0x9cb4b2f8129337db) == x
  {
  }

  lemma Mul64Inverses(x: bv64)
    ensures UnMulff51afd7ed558ccd(Mulff51afd7ed558ccd(x)) == x && Mulff51afd7ed558ccd(UnMulff51afd7ed558ccd(x)) == x
    ensures UnMulc4ceb9fe1a85ec53(Mulc4ceb9fe1a85ec53(x)) == x && Mulc4ceb9fe1a85ec53(UnMulc4ceb9fe1a85ec53(x)) == x
  {
    Mul64Products(x);
  }

  /** fmix64 is a bijection on 64-bit words, with `UnFMix64` its inverse. */
  lemma FMix64Bijective(k: bv64)
    ensures UnFMix64(FMix64(k)) == k
    ensures FMix64(UnFMix64(k)) == k
  {
    var a := XorShift33(k);
    var b := Mulff51afd7ed558ccd(a);
    var c := XorShift33(b);
    var d := Mulc4ceb9fe1a85ec53(c);
    XorShift33Involutive(d);
    Mul64Inverses(c);
    XorShift33Involutive(b);
    Mul64Inverses(a);
    XorShift33Involutive(k);
    var d' := XorShift33(k);
    var c' := UnMulc4ceb9fe1a85ec53(d');
    var b' := XorShift33(c');
    var a' := UnMulff51afd7ed558ccd(b');
    XorShift33Involutive(a');
    Mul64Inverses(b');
    XorShift33Involutive(c');
    Mul64Inverses(d');
  }

  lemma FMix64Injective(a: bv64, b: bv64)
    ensures FMix64(a) == FMix64(b) ==> a == b
  {
    FMix64Bijective(a);
    FMix64Bijective(b);
  }

  // ---------------------------------------------------------------------
  // Word operations
  // ---------------------------------------------------------------------

  // The engines' rounds are written with these named operations rather than
  // with the operators themselves: a proof about a round then works on the
  // names, and each operation's one property is proved once, below, on its
  // own. All of them wrap around, as C# `uint` and `ulong` arithmetic does in
  // an unchecked context.

  function Add(a: bv32, b: bv32): bv32 { a + b }
  function Sub(a: bv32, b: bv32): bv32 { a - b }
  function Xor(a: bv32, b: bv32): bv32 { a ^ b }
  function Rotl(x: bv32, n: nat): bv32 requires n <= 32 { x.RotateLeft(n) }
  function Rotr(x: bv32, n: nat): bv32 requires n <= 32 { x.RotateRight(n) }
  function Mul5(x: bv32): bv32 { x * 5 }
  function UnMul5(x: bv32): bv32 { x * 0xcccccccd }

  function Add64(a: bv64, b: bv64): bv64 { a + b }
  function Sub64(a: bv64, b: bv64): bv64 { a - b }
  function Xor64(a: bv64, b: bv64): bv64 { a ^ b }
  function Rotl64(x: bv64, n: nat): bv64 requires n <= 64 { x.RotateLeft(n) }
  function Rotr64(x: bv64, n: nat): bv64 requires n <= 64 { x.RotateRight(n) }
  function Mul5x64(x: bv64): bv64 { x * 5 }
  function UnMul5x64(x: bv64): bv64 { x * 0xcccccccccccccccd }

  // Each word operation is undone by its partner; 0xcccccccd is the inverse
  // of 5 modulo 2^32 and 0xcccccccccccccccd modulo 2^64.

  lemma AddInverse(a: bv32, b: bv32)
    ensures Sub(Add(a, b), b) == a && Add(Sub(a, b), b) == a
  {
    assert Sub(a + b, b) == a;
    assert Add(a - b, b) == a;
  }

  lemma XorInverse(a: bv32, b: bv32)
    ensures Xor(Xor(a, b), b) == a
  {
    assert Xor(a ^ b, b) == a;
  }

  /** XOR-ing the same word into two words leaves their difference alone. */
  lemma XorCancel(a: bv32, b: bv32, x: bv32)
    ensures Xor(Xor(a, x), Xor(b, x)) == Xor(a, b)
  {
    assert (a ^ x) ^ (b ^ x) == a ^ b;
  }

  lemma XorCancelLeft(a: bv32, x: bv32)
    ensures Xor(a, Xor(a, x)) == x
  {
    assert Xor(a, a ^ x) == x;
  }

  lemma XorZero(a: bv32)
    ensures Xor(a, 0) == a
  {
    assert a ^ 0 == a;
  }

  lemma RotlInverse(a: bv32, n: nat)
    requires n <= 32
    ensures Rotr(Rotl(a, n), n) == a
  {
    assert Rotr(a.RotateLeft(n), n) == a;
  }

  lemma Mul5Inverse(a: bv32)
    ensures UnMul5(Mul5(a)) == a
  {
    assert UnMul5(a * 5) == a;
  }

  lemma AddInverse64(a: bv64, b: bv64)
    ensures Sub64(Add64(a, b), b) == a && Add64(Sub64(a, b), b) == a
  {
    assert Sub64(a + b, b) == a;
    assert Add64(a - b, b) == a;
  }

  lemma XorInverse64(a: bv64, b: bv64)
    ensures Xor64(Xor64(a, b), b) == a
  {
    assert Xor64(a ^ b, b) == a;
  }

  lemma XorCancelLeft64(a: bv64, x: bv64)
    ensures Xor64(a, Xor64(a, x)) == x
  {
    assert Xor64(a, a ^ x) == x;
  }

  lemma XorZero64(a: bv64)
    ensures Xor64(a, 0) == a
  {
    assert a ^ 0 == a;
  }

  lemma RotlInverse64(a: bv64, n: nat)
    requires n <= 64
    ensures Rotr64(Rotl64(a, n), n) == a
  {
    assert Rotr64(a.RotateLeft(n), n) == a;
  }

  lemma Mul5Inverse64(a: bv64)
    ensures UnMul5x64(Mul5x64(a)) == a
  {
    assert UnMul5x64(a * 5) == a;
  }

  // ---------------------------------------------------------------------
  // Little-endian words
  // ---------------------------------------------------------------------

  function Zeros(n: nat): (z: seq<byte>)
    ensures |z| == n && forall i :: 0 <= i < n ==> z[i] == 0
  {
    seq(n, _ => 0)
  }

  /** `tail` followed by zero bytes up to `n` bytes: the key bytes a tail leaves unset. */
  function Padded(tail: seq<byte>, n: nat): (p: seq<byte>)
    requires |tail| <= n
    ensures |p| == n && p[..|tail|] == tail
    ensures forall i :: 0 <= i < n ==> p[i] == if i < |tail| then tail[i] else 0
  {
    tail + Zeros(n - |tail|)
  }

  /** Byte `i` of the `remainder` bytes of `s` at `position`, padded with zeros. */
  function TailByte(s: seq<byte>, position: nat, remainder: nat, i: nat): byte
    requires position + remainder <= |s|
  {
    if i < remainder then s[position + i] else 0
  }

  /** Byte `j` of a slice of `s`, padded with zeros to `n` bytes. */
  lemma PaddedSlice(s: seq<byte>, position: nat, remainder: nat, n: nat, j: nat)
    requires position + remainder <= |s| && remainder <= n && j < n
    ensures Padded(s[position..position + remainder], n)[j] == TailByte(s, position, remainder, j)
  {
  }

  /** The word at offset `o` of a padded slice, byte by byte. */
  lemma PaddedWord32(s: seq<byte>, position: nat, remainder: nat, n: nat, o: nat)
    requires position + remainder <= |s| && remainder <= n && o + 4 <= n
    ensures ToUInt32(Padded(s[position..position + remainder], n), o)
      == Word32(TailByte(s, position, remainder, o), TailByte(s, position, remainder, o + 1),
                TailByte(s, position, remainder, o + 2), TailByte(s, position, remainder, o + 3))
  {
    hide Word32, Padded, TailByte;
    PaddedSlice(s, position, remainder, n, o);
    PaddedSlice(s, position, remainder, n, o + 1);
    PaddedSlice(s, position, remainder, n, o + 2);
    PaddedSlice(s, position, remainder, n, o + 3);
  }

  /** The word at offset `o` of a padded slice, byte by byte. */
  lemma PaddedWord64(s: seq<byte>, position: nat, remainder: nat, n: nat, o: nat)
    requires position + remainder <= |s| && remainder <= n && o + 8 <= n
    ensures ToUInt64(Padded(s[position..position + remainder], n), o)
      == Word64(TailByte(s, position, remainder, o), TailByte(s, position, remainder, o + 1),
                TailByte(s, position, remainder, o + 2), TailByte(s, position, remainder, o + 3),
                TailByte(s, position, remainder, o + 4), TailByte(s, position, remainder, o + 5),
                TailByte(s, position, remainder, o + 6), TailByte(s, position, remainder, o + 7))
  {
    hide Word64, Padded, TailByte;
    PaddedSlice(s, position, remainder, n, o);
    PaddedSlice(s, position, remainder, n, o + 1);
    PaddedSlice(s, position, remainder, n, o + 2);
    PaddedSlice(s, position, remainder, n, o + 3);
    PaddedSlice(s, position, remainder, n, o + 4);
    PaddedSlice(s, position, remainder, n, o + 5);
    PaddedSlice(s, position, remainder, n, o + 6);
    PaddedSlice(s, position, remainder, n, o + 7);
  }

  /** The word whose bytes, least significant first, are `b0` .. `b3`. */
  function Word32(b0: byte, b1: byte, b2: byte, b3: byte): bv32 {
    (b0 as bv32) | ((b1 as bv32) << 8) | ((b2 as bv32) << 16) | ((b3 as bv32) << 24)
  }

  /** The bytes of a word occupy disjoint bits, so OR-ing them is XOR-ing them. */
  lemma Word32Xor(b0: byte, b1: byte, b2: byte, b3: byte)
    ensures Word32(b0, b1, b2, b3) == ((b3 as bv32) << 24) ^ ((b2 as bv32) << 16) ^ ((b1 as bv32) << 8) ^ (b0 as bv32)
  {
  }

  /** `BitConverter.ToUInt32(data, i)`: four bytes, least significant first. */
  function ToUInt32(data: seq<byte>, i: nat): bv32
    requires i + 4 <= |data|
  {
    Word32(data[i], data[i + 1], data[i + 2], data[i + 3])
  }

  /** A word read from a slice is the word at the same place in the whole buffer. */
  lemma ToUInt32Slice(data: seq<byte>, i: nat, j: nat, o: nat)
    requires i <= j <= |data| && i + o + 4 <= j
    ensures ToUInt32(data[i..j], o) == ToUInt32(data, i + o)
  {
    hide Word32;
    var s := data[i..j];
    assert s[o] == data[i + o] && s[o + 1] == data[i + o + 1];
    assert s[o + 2] == data[i + o + 2] && s[o + 3] == data[i + o + 3];
  }

  /** Where the bytes of `x` were written, `x` is read back. */
  lemma ToUInt32At(data: seq<byte>, i: nat, x: bv32)
    requires i + 4 <= |data| && data[i..i + 4] == GetBytes32(x)
    ensures ToUInt32(data, i) == x
  {
    GetBytes32RoundTrip(x);
    ToUInt32Slice(data, i, i + 4, 0);
  }

  /** Four zero bytes read as a `uint` give zero. */
  lemma ToUInt32OfZeros(data: seq<byte>, i: nat)
    requires i + 4 <= |data| && data[i] == data[i + 1] == data[i + 2] == data[i + 3] == 0
    ensures ToUInt32(data, i) == 0
  {
  }

  /** `BitConverter.GetBytes(x)` for a `uint`. */
  function GetBytes32(x: bv32): (r: seq<byte>)
    ensures |r| == 4
  {
    [(x & 0xFF) as byte, ((x >> 8) & 0xFF) as byte, ((x >> 16) & 0xFF) as byte, (x >> 24) as byte]
  }

  lemma GetBytes32RoundTrip(x: bv32)
    ensures ToUInt32(GetBytes32(x), 0) == x
  {
  }

  lemma ToUInt32RoundTrip(data: seq<byte>, i: nat)
    requires i + 4 <= |data|
    ensures GetBytes32(ToUInt32(data, i)) == data[i..i + 4]
  {
  }

  /** The word whose bytes, least significant first, are `b0` .. `b7`. */
  function Word64(b0: byte, b1: byte, b2: byte, b3: byte, b4: byte, b5: byte, b6: byte, b7: byte): bv64 {
    (b0 as bv64) | ((b1 as bv64) << 8) | ((b2 as bv64) << 16) | ((b3 as bv64) << 24)
    | ((b4 as bv64) << 32) | ((b5 as bv64) << 40) | ((b6 as bv64) << 48) | ((b7 as bv64) << 56)
  }

  /** The bytes of a word occupy disjoint bits, so OR-ing them is XOR-ing them. */
  lemma Word64Xor(b0: byte, b1: byte, b2: byte, b3: byte, b4: byte, b5: byte, b6: byte, b7: byte)
    ensures Word64(b0, b1, b2, b3, b4, b5, b6, b7)
      == ((b7 as bv64) << 56) ^ ((b6 as bv64) << 48) ^ ((b5 as bv64) << 40) ^ ((b4 as bv64) << 32)
       ^ ((b3 as bv64) << 24) ^ ((b2 as bv64) << 16) ^ ((b1 as bv64) << 8) ^ (b0 as bv64)
  {
  }

  /** `BitConverter.ToUInt64(data, i)`: eight bytes, least significant first. */
  function ToUInt64(data: seq<byte>, i: nat): bv64
    requires i + 8 <= |data|
  {
    Word64(data[i], data[i + 1], data[i + 2], data[i + 3], data[i + 4], data[i + 5], data[i + 6], data[i + 7])
  }

  /** A word read from a slice is the word at the same place in the whole buffer. */
  lemma ToUInt64Slice(data: seq<byte>, i: nat, j: nat, o: nat)
    requires i <= j <= |data| && i + o + 8 <= j
    ensures ToUInt64(data[i..j], o) == ToUInt64(data, i + o)
  {
    hide Word64;
    var s := data[i..j];
    assert s[o] == data[i + o] && s[o + 1] == data[i + o + 1];
    assert s[o + 2] == data[i + o + 2] && s[o + 3] == data[i + o + 3];
    assert s[o + 4] == data[i + o + 4] && s[o + 5] == data[i + o + 5];
    assert s[o + 6] == data[i + o + 6] && s[o + 7] == data[i + o + 7];
  }

  /** Where the bytes of `x` were written, `x` is read back. */
  lemma ToUInt64At(data: seq<byte>, i: nat, x: bv64)
    requires i + 8 <= |data| && data[i..i + 8] == GetBytes64(x)
    ensures ToUInt64(data, i) == x
  {
    GetBytes64RoundTrip(x);
    ToUInt64Slice(data, i, i + 8, 0);
  }

  /** Eight zero bytes read as a `ulong` give zero. */
  lemma ToUInt64OfZeros(data: seq<byte>, i: nat)
    requires i + 8 <= |data|
    requires data[i] == data[i + 1] == data[i + 2] == data[i + 3] == 0
    requires data[i + 4] == data[i + 5] == data[i + 6] == data[i + 7] == 0
    ensures ToUInt64(data, i) == 0
  {
  }

  /** `BitConverter.GetBytes(x)` for a `ulong`. */
  function GetBytes64(x: bv64): (r: seq<byte>)
    ensures |r| == 8
  {
    [(x & 0xFF) as byte, ((x >> 8) & 0xFF) as byte, ((x >> 16) & 0xFF) as byte, ((x >> 24) & 0xFF) as byte,
     ((x >> 32) & 0xFF) as byte, ((x >> 40) & 0xFF) as byte, ((x >> 48) & 0xFF) as byte, (x >> 56) as byte]
  }

  lemma GetBytes64RoundTrip(x: bv64)
    ensures ToUInt64(GetBytes64(x), 0) == x
  {
  }

  lemma ToUInt64RoundTrip(data: seq<byte>, i: nat)
    requires i + 8 <= |data|
    ensures GetBytes64(ToUInt64(data, i)) == data[i..i + 8]
  {
  }
}
