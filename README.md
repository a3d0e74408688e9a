# MurmurHash3 streaming engines, modelled in Dafny

This project models the hashing engines of murmurhash-net, a C# port of the
MurmurHash3 reference. Each engine is a .NET `HashAlgorithm` object with:

- an immutable `uint` seed;
- one, two or four wrapping accumulators (`H1`..`H4`);
- a running `int` `Length`.

`HashCore` adds a chunk's length to `Length` and runs `Body`. `Body` mixes in
every whole block (4 or 16 bytes, read as little-endian words) and hands the
1 to 15 leftover bytes to `Tail`. `Tail` packs them into key words with a
fall-through `switch` and XORs their scrambles in. `HashFinal` folds in the
length, cross-adds, applies the fmix avalanche, cross-adds again and writes the
accumulators out little-endian.

The five engines modelled are:

- `Murmur32ManagedX86` with its base class `Murmur32` (MurmurHash3_x86_32);
- `Murmur128ManagedX86` and `Murmur128UnmanagedX86` (MurmurHash3_x86_128);
- `Murmur128ManagedX64` and `Murmur128UnmanagedX64` (MurmurHash3_x64_128).

The `Murmur128` base class is folded into the 128-bit engines as a `const`
seed, plus the constant `Murmur128.HashSize`.

## Layout

Each engine is a `class` whose fields are the C# properties (`seed`, `h1`..,
`length`). Its methods update those fields in place, as the source does.
Every method is proved against functions of a specification module:

| module | file | contents |
|---|---|---|
| `Primitives` | primitives.dfy | C# `int` wrap-around and casts, fmix32/fmix64 and their inverses, word operations, little-endian reads and writes |
| `BlockFold` | block_fold.dfy | the generic block-then-tail fold over a chunk (`Blocks`, `Rest`, `BodyFold`) and how it splits over concatenation |
| `Murmur32` | murmur32.dfy | the `Murmur32` base class: state, `Reset` state, `HashFinal` and the digest |
| `Murmur32Managed` | murmur32_managed.dfy | the x86_32 block and tail mixes, `Update` (= `HashCore`), and the class `Murmur32ManagedX86` |
| `Murmur128` | murmur128.dfy | `HashSize` of the 128-bit engines |
| `Murmur128X86` | murmur128_x86.dfy | x86_128: rounds, tail, `Update`, `Final`, `Digest` and their properties |
| `ManagedX86`, `UnmanagedX86` | murmur128_managed_x86.dfy, murmur128_unmanaged_x86.dfy | the two x86_128 engine classes |
| `Murmur128X64` | murmur128_x64.dfy | x64_128: the same, over two `ulong` accumulators |
| `ManagedX64`, `UnmanagedX64` | murmur128_managed_x64.dfy, murmur128_unmanaged_x64.dfy | the two x64_128 engine classes |

Every engine method states its whole new state:

- `HashCore` leaves `State() == Update(old(State()), chunk)`;
- `HashFinal` leaves `Final(old(State()))` and returns `Digest(old(State()))`;
- `Reset`, `Initialize` and the constructor leave `Initial(seed)`.

The managed and unmanaged engine of each layout are proved against the same
`Update`, `Final` and `Digest`. So from equal states, and given equal bytes,
they reach equal states and return equal digests. This is the equivalence
that the tests in MurmurHash.Specs/Murmur128Specs.cs:112-113 check on
examples.

### How the code is followed

The length folded in at finalisation is the C# `int` `Length`, not a total
byte count:

- `Length` wraps modulo 2^32 (`AddInt32`);
- `(uint)Length` reinterprets the bits (`UInt32Of`);
- the x64 engines' `(ulong)Length` sign-extends a negative `Length` (`UInt64Of`).

The x64 seed is a `uint` widened with zeros, as `H1 = H2 = Seed` does.

The unmanaged engines pin `&data[start]` unconditionally. That throws
`IndexOutOfRangeException` when a chunk starts at the end of its array, which
can only happen for an empty chunk there. The managed engines do nothing for
that chunk. The unmanaged `HashCore` models the throw as the result
`faulted`, which is true exactly when `ibStart == buffer.Length`. `Length +=
0` has run before the throw, so the state is the one an empty chunk would
leave. The unmanaged `Body` carries the precondition `start < data.Length`.

## Model

| member | source | states |
|---|---|---|
| `Primitives.AddInt32` | MurmurHash/Managed/Murmur32ManagedX86.cs:32 | `Length += cbSize` in unchecked C#: the result is congruent to the sum modulo 2^32, and equals it when the sum fits in an `int` |
| `Primitives.AddInt32Twice` | MurmurHash/Managed/Murmur32ManagedX86.cs:32 | adding two chunk lengths one after the other wraps to the same `Length` as adding their sum |
| `Primitives.FMix32Bijective` | MurmurHash/Murmur32.cs:71 | fmix32 is a bijection on `uint`: `UnFMix32` undoes it from both sides |
| `Primitives.FMix64Bijective` | MurmurHash/Managed/Murmur128ManagedX64.cs:161-162 | fmix64 is a bijection on `ulong`: `UnFMix64` undoes it from both sides |
| `Primitives.ToUInt32RoundTrip` | MurmurHash/Managed/Murmur32ManagedX86.cs:43 | the little-endian `uint` read at `i` encodes back to the four bytes at `i` |
| `Primitives.GetBytes32RoundTrip` | MurmurHash/Murmur32.cs:73 | `BitConverter.GetBytes` of a `uint` reads back as that `uint` |
| `Primitives.ToUInt64RoundTrip` | MurmurHash/Managed/Murmur128ManagedX64.cs:81 | the little-endian `ulong` read at `i` encodes back to the eight bytes at `i` |
| `Primitives.GetBytes64RoundTrip` | MurmurHash/Managed/Murmur128ManagedX64.cs:168 | `BitConverter.GetBytes` of a `ulong` reads back as that `ulong` |
| `Murmur32.Final` | MurmurHash/Murmur32.cs:69-72 | `HashFinal` rewrites `H1` only; `Length` is kept |
| `Murmur32.Digest` | MurmurHash/Murmur32.cs:69-74 | the digest has `HashSize` = 32 bits |
| `Murmur32.DigestDecodes` | MurmurHash/Murmur32.cs:73 | the digest is exactly the little-endian encoding of the final `H1`, and reads back as it |
| `Murmur32.FinalH1Inverse` | MurmurHash/Murmur32.cs:71 | for a known length, `H1 := fmix32(H1 ^ len)` is undone by `UnFMix32` and the XOR |
| `Murmur32.FinalH1Injective` | MurmurHash/Murmur32.cs:71 | two accumulators finalised with the same length give the same `H1` only if they were equal |
| `Murmur32.FinalRecoversH1` | MurmurHash/Murmur32.cs:69-72 | the pre-finalisation `H1` is recovered from the final one and `(uint)Length` |
| `Murmur32.DigestInjective` | MurmurHash/Murmur32.cs:69-74 | two states with the same `Length` have equal digests only if their `H1` are equal |
| `Murmur32.EmptyDigest` | MurmurHash/Murmur32.cs:58-74 | with nothing hashed, the digest is the little-endian encoding of fmix32 of the seed |
| `Murmur32Managed.MixBlockAt` | MurmurHash/Managed/Murmur32ManagedX86.cs:42-43 | mixing the 4-byte block at `i` is mixing the little-endian `uint` read at `i` |
| `Murmur32Managed.ScrambleK1Inverse` | MurmurHash/Managed/Murmur32ManagedX86.cs:43 | the key scramble `rotl(k * C1, 15) * C2` loses nothing |
| `Murmur32Managed.MixH1Inverse` | MurmurHash/Managed/Murmur32ManagedX86.cs:43 | for a known key, the block step on `H1` can be undone |
| `Murmur32Managed.MixBlockInverse` | MurmurHash/Managed/Murmur32ManagedX86.cs:42-43 | for a known block, the block mix permutes `H1` |
| `Murmur32Managed.TailKeyLayout` | MurmurHash/Managed/Murmur32ManagedX86.cs:56-67 | tail byte `j` sits at bits `8j` of `k1`, and the bytes above the tail are zero |
| `Murmur32Managed.TailMixOnlyXors` | MurmurHash/Managed/Murmur32ManagedX86.cs:69 | `Tail` changes `H1` by XOR only: two accumulators differ by the same bits before and after |
| `Murmur32Managed.TailH1Injective` | MurmurHash/Managed/Murmur32ManagedX86.cs:69 | from the same `H1`, different keys give different results |
| `Murmur32Managed.TailKeyInjective` | MurmurHash/Managed/Murmur32ManagedX86.cs:56-67 | two tails of the same length with the same key are the same bytes |
| `Murmur32Managed.TailMixInjective` | MurmurHash/Managed/Murmur32ManagedX86.cs:50-70 | from the same `H1`, two tails of the same length give the same `H1` only if they are the same bytes |
| `Murmur32Managed.UpdateEmpty` | MurmurHash/Managed/Murmur32ManagedX86.cs:30-34 | hashing an empty chunk changes nothing |
| `Murmur32Managed.BodyMixAligned` | MurmurHash/Managed/Murmur32ManagedX86.cs:39-46 | a chunk of whole blocks goes through the block loop only; `Tail` does not run |
| `Murmur32Managed.UpdateAppend` | MurmurHash/Managed/Murmur32ManagedX86.cs:30-47 | two `HashCore` calls whose first chunk is a multiple of 4 bytes leave the same `H1` and `Length` as one call on the concatenation |
| `Murmur32Managed.Murmur32ManagedX86.constructor` | MurmurHash/Murmur32.cs:30-34 | the seed is stored and `Reset` runs: `H1 == seed`, `Length == 0` |
| `Murmur32Managed.Murmur32ManagedX86.Reset` | MurmurHash/Murmur32.cs:58-62 | `H1 == seed` and `Length == 0`, whatever the state was |
| `Murmur32Managed.Murmur32ManagedX86.Initialize` | MurmurHash/Murmur32.cs:64-67 | the state `Reset` establishes, so calling it twice is calling it once |
| `Murmur32Managed.Murmur32ManagedX86.HashCore` | MurmurHash/Managed/Murmur32ManagedX86.cs:30-34 | the new state is `Update` of the old one by `array[ibStart..ibStart + cbSize]` |
| `Murmur32Managed.Murmur32ManagedX86.Body` | MurmurHash/Managed/Murmur32ManagedX86.cs:37-47 | the loop mixes the `length / 4` blocks at `start, start + 4, ..` in order, then `Tail` runs on the rest if there is any; `Length` is unchanged |
| `Murmur32Managed.Murmur32ManagedX86.Tail` | MurmurHash/Managed/Murmur32ManagedX86.cs:50-70 | `H1` becomes `TailMix` of the old `H1` and exactly the `remainder` bytes at `position` |
| `Murmur32Managed.Murmur32ManagedX86.HashFinal` | MurmurHash/Murmur32.cs:69-74 | `H1 := fmix32(H1 ^ (uint)Length)` and the result is its four little-endian bytes |
| `Murmur128X86.MixBlockAt` | MurmurHash/Managed/Murmur128ManagedX86.cs:96-99 | a block is four little-endian `uint` keys at `i`, `i + 4`, `i + 8`, `i + 12` |
| `Murmur128X86.ReadTailKey` | MurmurHash/Managed/Murmur128ManagedX86.cs:125-172 | the fall-through cases of one key build exactly the little-endian word of its four tail bytes, zero beyond the tail |
| `Murmur128X86.Final` | MurmurHash/Managed/Murmur128ManagedX86.cs:182-201 | `HashFinal` rewrites the accumulators only; `Length` is kept |
| `Murmur128X86.WordsBytes` | MurmurHash/Managed/Murmur128ManagedX86.cs:203-207 | the accumulators are written out as 16 bytes |
| `Murmur128X86.Digest` | MurmurHash/Managed/Murmur128ManagedX86.cs:180-210 | the digest has `Murmur128.HashSize` = 128 bits |
| `Murmur128X86.ScrambleInverses` | MurmurHash/Managed/Murmur128ManagedX86.cs:101-110 | each of the four key scrambles (rotations 15, 16, 17, 18) loses nothing |
| `Murmur128X86.ScrambleZero` | MurmurHash/Managed/Murmur128ManagedX86.cs:174-177 | a zero key scrambles to zero |
| `Murmur128X86.RoundInverse` | MurmurHash/Managed/Murmur128ManagedX86.cs:101-111 | each accumulator update, for a known key and neighbour, can be undone |
| `Murmur128X86.MixKeysInverse` | MurmurHash/Managed/Murmur128ManagedX86.cs:101-111 | for fixed keys, a block permutes the accumulators; the undoing runs `H4` first because `H4` uses the new `H1` while `H1`..`H3` use the old `H2`..`H4` |
| `Murmur128X86.MixBlockInverse` | MurmurHash/Managed/Murmur128ManagedX86.cs:94-112 | for a known block, the block mix can be undone |
| `Murmur128X86.TailKeysLayout` | MurmurHash/Managed/Murmur128ManagedX86.cs:125-172 | the four tail keys, written out little-endian in order, are the tail padded with zeros to 16 bytes: byte `j` sits in `k(j / 4 + 1)` at bits `8 * (j % 4)` |
| `Murmur128X86.TailLeavesHigherWords` | MurmurHash/Managed/Murmur128ManagedX86.cs:174-177 | a tail of at most 4, 8 or 12 bytes leaves `H2..H4`, `H3..H4` or `H4` unchanged |
| `Murmur128X86.TailMixInvolutive` | MurmurHash/Managed/Murmur128ManagedX86.cs:174-177 | `Tail` only XORs: applying the same tail twice restores the accumulators |
| `Murmur128X86.UpdateEmpty` | MurmurHash/Managed/Murmur128ManagedX86.cs:82-87 | hashing an empty chunk changes nothing |
| `Murmur128X86.BodyMixAligned` | MurmurHash/Managed/Murmur128ManagedX86.cs:92-116 | a chunk of whole blocks goes through the block loop only; `Tail` does not run |
| `Murmur128X86.UpdateAppend` | MurmurHash/Managed/Murmur128ManagedX86.cs:82-116 | two `HashCore` calls whose first chunk is a multiple of 16 bytes give the same state as one call on the concatenation |
| `Murmur128X86.CrossAddInverse` | MurmurHash/Managed/Murmur128ManagedX86.cs:188-191 | the cross-addition can be undone |
| `Murmur128X86.FinalWordsInverse` | MurmurHash/Managed/Murmur128ManagedX86.cs:182-201 | for a known length, finalisation (XOR length, cross-add, fmix32 each, cross-add) permutes the accumulators |
| `Murmur128X86.WordsBytesDecode` | MurmurHash/Managed/Murmur128ManagedX86.cs:203-207 | `H1..H4` sit little-endian in bytes 0-3, 4-7, 8-11 and 12-15 |
| `Murmur128X86.DigestDecodes` | MurmurHash/Managed/Murmur128ManagedX86.cs:180-210 | the digest reads back as the four final accumulators, in order |
| `Murmur128X86.DigestInjective` | MurmurHash/Managed/Murmur128ManagedX86.cs:180-210 | two states with the same `Length` have equal digests only if their accumulators are equal |
| `Murmur128X86.EmptyDigest` | MurmurHash/Managed/Murmur128ManagedX86.cs:182-201 | with nothing hashed, the length XOR is a no-op and the digest is finalisation of four copies of the seed |
| `ManagedX86.Murmur128ManagedX86.constructor` | MurmurHash/Managed/Murmur128ManagedX86.cs:34-38 | the seed is stored and the state is the `Reset` state |
| `ManagedX86.Murmur128ManagedX86.Reset` | MurmurHash/Managed/Murmur128ManagedX86.cs:70-75 | `H1 == H2 == H3 == H4 == seed` and `Length == 0` |
| `ManagedX86.Murmur128ManagedX86.Initialize` | MurmurHash/Managed/Murmur128ManagedX86.cs:77-80 | the `Reset` state, from any state |
| `ManagedX86.Murmur128ManagedX86.HashCore` | MurmurHash/Managed/Murmur128ManagedX86.cs:82-87 | the new state is `Update` of the old one by the chunk |
| `ManagedX86.Murmur128ManagedX86.Body` | MurmurHash/Managed/Murmur128ManagedX86.cs:90-116 | the `for` loop mixes the `length / 16` blocks in order, then `Tail` runs on the rest if there is any |
| `ManagedX86.Murmur128ManagedX86.MixRounds` | MurmurHash/Managed/Murmur128ManagedX86.cs:101-111 | the eight in-place statements of one block compute `MixKeys` of the old accumulators |
| `ManagedX86.Murmur128ManagedX86.Tail` | MurmurHash/Managed/Murmur128ManagedX86.cs:119-178 | the accumulators become `TailMix` of the old ones and exactly the `remainder` bytes at `position` |
| `ManagedX86.Murmur128ManagedX86.HashFinal` | MurmurHash/Managed/Murmur128ManagedX86.cs:180-210 | the fields end as `Final` of the old state and the result is `Digest` of it |
| `UnmanagedX86.Murmur128UnmanagedX86.constructor` | MurmurHash/Unmanaged/Murmur128UnmanagedX86.cs:29-33 | the seed is stored and the state is the `Reset` state |
| `UnmanagedX86.Murmur128UnmanagedX86.Reset` | MurmurHash/Unmanaged/Murmur128UnmanagedX86.cs:65-70 | `H1 == H2 == H3 == H4 == seed` and `Length == 0` |
| `UnmanagedX86.Murmur128UnmanagedX86.Initialize` | MurmurHash/Unmanaged/Murmur128UnmanagedX86.cs:72-75 | the `Reset` state, from any state |
| `UnmanagedX86.Murmur128UnmanagedX86.HashCore` | MurmurHash/Unmanaged/Murmur128UnmanagedX86.cs:77-82 | the new state is `Update` of the old one by the chunk, the same function the managed engine computes; it faults exactly when `ibStart == array.Length` |
| `UnmanagedX86.Murmur128UnmanagedX86.Body` | MurmurHash/Unmanaged/Murmur128UnmanagedX86.cs:85-119 | the `while (blocks-- > 0)` loop over a `uint*` cursor mixes the blocks in order, then `Tail` runs at `start + length - remainder` |
| `UnmanagedX86.Murmur128UnmanagedX86.MixNextBlock` | MurmurHash/Unmanaged/Murmur128UnmanagedX86.cs:99-112 | four `*b++` reads advance the cursor by 16 bytes and mix the four little-endian words there |
| `UnmanagedX86.Murmur128UnmanagedX86.Tail` | MurmurHash/Unmanaged/Murmur128UnmanagedX86.cs:122-181 | the accumulators become `TailMix` of the old ones and exactly the `remainder` bytes at the tail pointer |
| `UnmanagedX86.Murmur128UnmanagedX86.HashFinal` | MurmurHash/Unmanaged/Murmur128UnmanagedX86.cs:183-222 | the fields end as `Final` of the old state and the new array holds `Digest` of it |
| `UnmanagedX86.StoreWords` | MurmurHash/Unmanaged/Murmur128UnmanagedX86.cs:207-219 | the stores `r[0] = H1` .. `r[3] = H4` fill the 16 bytes with the accumulators, little-endian |
| `UnmanagedX86.StoreUInt32` | MurmurHash/Unmanaged/Murmur128UnmanagedX86.cs:214-217 | one `uint` store writes its four bytes and nothing else |
| `Murmur128X64.MixBlockAt` | MurmurHash/Managed/Murmur128ManagedX64.cs:81-84 | a block is two little-endian `ulong` keys at `i` and `i + 8` |
| `Murmur128X64.ReadTailKey` | MurmurHash/Managed/Murmur128ManagedX64.cs:99-146 | the fall-through cases of one key build exactly the little-endian word of its eight tail bytes, zero beyond the tail |
| `Murmur128X64.Final` | MurmurHash/Managed/Murmur128ManagedX64.cs:154-165 | `HashFinal` rewrites the accumulators only; `Length` is kept |
| `Murmur128X64.WordsBytes` | MurmurHash/Managed/Murmur128ManagedX64.cs:167-169 | the accumulators are written out as 16 bytes |
| `Murmur128X64.Digest` | MurmurHash/Managed/Murmur128ManagedX64.cs:152-172 | the digest has `Murmur128.HashSize` = 128 bits |
| `Murmur128X64.ScrambleInverses` | MurmurHash/Managed/Murmur128ManagedX64.cs:81-85 | both key scrambles (rotations 31 and 33) lose nothing |
| `Murmur128X64.ScrambleZero` | MurmurHash/Managed/Murmur128ManagedX64.cs:148-149 | a zero key scrambles to zero |
| `Murmur128X64.RoundInverse` | MurmurHash/Managed/Murmur128ManagedX64.cs:81-85 | each accumulator update, for a known key and neighbour, can be undone |
| `Murmur128X64.MixKeysInverse` | MurmurHash/Managed/Murmur128ManagedX64.cs:81-85 | for fixed keys, a block permutes the accumulators; the undoing runs `H2` first because `H2` uses the new `H1` while `H1` uses the old `H2` |
| `Murmur128X64.MixBlockInverse` | MurmurHash/Managed/Murmur128ManagedX64.cs:79-86 | for a known block, the block mix can be undone |
| `Murmur128X64.TailKeysLayout` | MurmurHash/Managed/Murmur128ManagedX64.cs:99-146 | the two tail keys, written out little-endian in order, are the tail padded with zeros to 16 bytes: byte `j < 8` sits in `k1` at bits `8j`, byte `j >= 8` in `k2` at bits `8(j - 8)` |
| `Murmur128X64.TailLeavesH2` | MurmurHash/Managed/Murmur128ManagedX64.cs:148-149 | a tail of at most 8 bytes leaves `H2` unchanged |
| `Murmur128X64.TailMixInvolutive` | MurmurHash/Managed/Murmur128ManagedX64.cs:148-149 | `Tail` only XORs: applying the same tail twice restores the accumulators |
| `Murmur128X64.UpdateEmpty` | MurmurHash/Managed/Murmur128ManagedX64.cs:67-72 | hashing an empty chunk changes nothing |
| `Murmur128X64.BodyMixAligned` | MurmurHash/Managed/Murmur128ManagedX64.cs:75-90 | a chunk of whole blocks goes through the block loop only; `Tail` does not run |
| `Murmur128X64.UpdateAppend` | MurmurHash/Managed/Murmur128ManagedX64.cs:67-90 | two `HashCore` calls whose first chunk is a multiple of 16 bytes give the same state as one call on the concatenation |
| `Murmur128X64.CrossAddInverse` | MurmurHash/Managed/Murmur128ManagedX64.cs:158-159 | `H1 += H2; H2 += H1` can be undone |
| `Murmur128X64.FinalWordsInverse` | MurmurHash/Managed/Murmur128ManagedX64.cs:154-165 | for a known length, finalisation (XOR length, cross-add, fmix64 each, cross-add) permutes the accumulators |
| `Murmur128X64.WordsBytesDecode` | MurmurHash/Managed/Murmur128ManagedX64.cs:167-169 | `H1` sits little-endian in bytes 0-7 and `H2` in bytes 8-15 |
| `Murmur128X64.DigestDecodes` | MurmurHash/Managed/Murmur128ManagedX64.cs:152-172 | the digest reads back as the two final accumulators, in order |
| `Murmur128X64.DigestInjective` | MurmurHash/Managed/Murmur128ManagedX64.cs:152-172 | two states with the same `Length` have equal digests only if their accumulators are equal |
| `Murmur128X64.EmptyDigest` | MurmurHash/Managed/Murmur128ManagedX64.cs:154-165 | with nothing hashed, the length XOR is a no-op and the digest is finalisation of two copies of the zero-extended seed |
| `ManagedX64.Murmur128ManagedX64.constructor` | MurmurHash/Managed/Murmur128ManagedX64.cs:30-34 | the seed is stored and the state is the `Reset` state |
| `ManagedX64.Murmur128ManagedX64.Reset` | MurmurHash/Managed/Murmur128ManagedX64.cs:54-60 | `H1 == H2 ==` the seed zero-extended to 64 bits and `Length == 0` |
| `ManagedX64.Murmur128ManagedX64.Initialize` | MurmurHash/Managed/Murmur128ManagedX64.cs:62-65 | the `Reset` state, from any state |
| `ManagedX64.Murmur128ManagedX64.HashCore` | MurmurHash/Managed/Murmur128ManagedX64.cs:67-72 | the new state is `Update` of the old one by the chunk |
| `ManagedX64.Murmur128ManagedX64.Body` | MurmurHash/Managed/Murmur128ManagedX64.cs:75-90 | the `for` loop mixes the `length / 16` blocks in order, then `Tail` runs on the rest if there is any |
| `ManagedX64.Murmur128ManagedX64.MixRounds` | MurmurHash/Managed/Murmur128ManagedX64.cs:81-85 | the four in-place statements of one block compute `MixKeys` of the old accumulators |
| `ManagedX64.Murmur128ManagedX64.Tail` | MurmurHash/Managed/Murmur128ManagedX64.cs:93-150 | the accumulators become `TailMix` of the old ones and exactly the `remaining` bytes at `start` |
| `ManagedX64.Murmur128ManagedX64.HashFinal` | MurmurHash/Managed/Murmur128ManagedX64.cs:152-172 | the fields end as `Final` of the old state and the result is `Digest` of it |
| `UnmanagedX64.Murmur128UnmanagedX64.constructor` | MurmurHash/Unmanaged/Murmur128UnmanagedX64.cs:29-33 | the seed is stored and the state is the `Reset` state |
| `UnmanagedX64.Murmur128UnmanagedX64.Reset` | MurmurHash/Unmanaged/Murmur128UnmanagedX64.cs:53-58 | `H1 == H2 ==` the seed zero-extended to 64 bits and `Length == 0` |
| `UnmanagedX64.Murmur128UnmanagedX64.Initialize` | MurmurHash/Unmanaged/Murmur128UnmanagedX64.cs:60-63 | the `Reset` state, from any state |
| `UnmanagedX64.Murmur128UnmanagedX64.HashCore` | MurmurHash/Unmanaged/Murmur128UnmanagedX64.cs:65-70 | the new state is `Update` of the old one by the chunk, the same function the managed engine computes; it faults exactly when `ibStart == array.Length` |
| `UnmanagedX64.Murmur128UnmanagedX64.Body` | MurmurHash/Unmanaged/Murmur128UnmanagedX64.cs:73-98 | the `while (blocks-- > 0)` loop over a `ulong*` cursor mixes the blocks in order, then `Tail` runs at `start + length - remainder` |
| `UnmanagedX64.Murmur128UnmanagedX64.MixNextBlock` | MurmurHash/Unmanaged/Murmur128UnmanagedX64.cs:87-91 | two `*current++` reads advance the cursor by 16 bytes and mix the two little-endian words there |
| `UnmanagedX64.Murmur128UnmanagedX64.Tail` | MurmurHash/Unmanaged/Murmur128UnmanagedX64.cs:101-158 | the accumulators become `TailMix` of the old ones and exactly the `remaining` bytes at the tail pointer |
| `UnmanagedX64.Murmur128UnmanagedX64.HashFinal` | MurmurHash/Unmanaged/Murmur128UnmanagedX64.cs:160-188 | the fields end as `Final` of the old state and the new array holds `Digest` of it |
| `UnmanagedX64.StoreWords` | MurmurHash/Unmanaged/Murmur128UnmanagedX64.cs:175-185 | the stores `r[0] = H1`, `r[1] = H2` fill the 16 bytes with the accumulators, little-endian |
| `UnmanagedX64.StoreUInt64` | MurmurHash/Unmanaged/Murmur128UnmanagedX64.cs:182-183 | one `ulong` store writes its eight bytes and nothing else |

## Left out

- Runners/Program.cs: a benchmark harness with console output, timing, random data and floating-point throughput figures.
- MurmurHash/MurmurHash.cs: the factory that picks an engine by process bitness. It constructs `Murmur32UnmanagedX86`, which is not part of this model.
- MurmurHash/GlobalSuppressions.cs: code-analysis attributes only.
- The tests under MurmurHash.Specs and their known-answer digests. Those values depend on a verifier class that is not part of this model. The tests' managed-versus-unmanaged comparison is covered as described above, by proving both engines against the same functions.
- The .NET `HashAlgorithm` machinery (`ComputeHash`, `TransformBlock`, `TransformFinalBlock`, argument checks). `HashCore` instead requires `0 <= ibStart`, `0 <= cbSize` and `ibStart + cbSize <= array.Length`, the bounds the framework checks before calling it.
- The extension methods `RotateLeft`, `FMix`, `ToUInt32` and `ToUInt64` are not part of this model's sources. They are defined from the MurmurHash3 reference: ROTL32/ROTL64 as Dafny's `RotateLeft`, fmix32 and fmix64 with their published shifts and multipliers, and little-endian word reads.
- Pointer semantics. A `uint*`/`ulong*`/`byte*` into an array is a byte offset into it. A word read or store through it is a little-endian read or write of the bytes at that offset. Unaligned access and big-endian hosts are not modelled; on a big-endian host `BitConverter` and the pointer reads would both change.
- `fixed` pinning and garbage-collector interaction: no effect on values.
- The exception thrown when the unmanaged engines pin `&data[start]` at the end of the array is reported as the `faulted` result of `HashCore`, not propagated. The state after it is modelled.
- The managed engines' `HashFinal` builds the digest with `Array.Copy` of `BitConverter.GetBytes` into `new byte[16]`. It is modelled as the returned byte sequence, not a fresh array.
- The statements of one block of `Body`'s loop are in their own methods (`MixRounds` in the managed engines, `MixNextBlock` in the unmanaged ones). The fall-through cases filling one tail key are in `ReadTailKey`, and the pointer stores of `HashFinal` are in `StoreWords`. Each is the source's inline code, split out for verification; the order of reads and updates is the source's.
- The single 8-byte store through a `ulong*` is written in `StoreUInt64` as eight byte stores.

