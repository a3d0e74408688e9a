/**
 * The `Murmur128` base class: every 128-bit engine carries an immutable
 * `uint` seed, passed to its constructor, and reports a hash size of 128 bits.
 * The engines' accumulators differ (four `uint`s for x86, two `ulong`s for
 * x64) and live with each engine.
 */
module Murmur128 {
  /** `HashSize`: the digest has 128 bits. */
  const HashSize: nat := 128
}
