/**
 * The block structure every MurmurHash3 engine shares: `Body` consumes a chunk
 * in whole blocks of a fixed size (4 bytes for the 32-bit engine, 16 for the
 * 128-bit ones), left to right, and hands the leftover bytes to `Tail`.
 *
 * `Blocks` folds an engine's block mix over the whole blocks of a chunk and
 * `Rest` is what is left for the tail. Stated once here, the facts about how
 * the two split a chunk serve every engine.
 */
module BlockFold {
  import opened Primitives

  /** `mix` is defined on every block of `size` bytes, whatever the state. */
  ghost predicate MixesBlocks<S(!new)>(mix: (S, seq<byte>) --> S, size: nat)
  {
    forall s: S, b: seq<byte> | |b| == size :: mix.requires(s, b)
  }

  /** Mix the whole blocks of `data` into `s`, first block first. */
  function Blocks<S(!new)>(mix: (S, seq<byte>) --> S, size: nat, s: S, data: seq<byte>): S
    requires size > 0 && MixesBlocks(mix, size)
    decreases |data|
  {
    if |data| < size then s else Blocks(mix, size, mix(s, data[..size]), data[size..])
  }

  /** `data` is a whole number of blocks of `size` bytes. */
  ghost predicate Aligned(size: nat, data: seq<byte>)
    requires size > 0
    decreases |data|
  {
    |data| == 0 || (size <= |data| && Aligned(size, data[size..]))
  }

  /** A chunk whose length is `q` times the block size is block-aligned. */
  lemma {:induction false} AlignedMultiple(size: nat, data: seq<byte>, q: nat)
    requires size > 0 && |data| == q * size
    ensures Aligned(size, data)
    decreases q
  {
    if q > 0 {
      AlignedMultiple(size, data[size..], q - 1);
    }
  }

  /** Appending one more block keeps a chunk block-aligned. */
  lemma {:induction false} AlignedSnoc(size: nat, x: seq<byte>, b: seq<byte>)
    requires size > 0 && Aligned(size, x) && |b| == size
    ensures Aligned(size, x + b)
    decreases |x|
  {
    if |x| == 0 {
      assert (x + b)[size..] == [];
    } else {
      assert (x + b)[size..] == x[size..] + b;
      AlignedSnoc(size, x[size..], b);
    }
  }

  /** The bytes of `data` after its last whole block. */
  function Rest(size: nat, data: seq<byte>): (r: seq<byte>)
    requires size > 0
    ensures |r| < size && |r| <= |data| && r == data[|data| - |r|..]
    decreases |data|
  {
    if |data| < size then data else Rest(size, data[size..])
  }

  /** A chunk made of whole blocks leaves the tail of what follows it in place. */
  lemma {:induction false} RestAppend(size: nat, x: seq<byte>, y: seq<byte>)
    requires size > 0 && Aligned(size, x)
    ensures Rest(size, x + y) == Rest(size, y)
    decreases |x|
  {
    if |x| > 0 {
      assert size <= |x|;
      assert (x + y)[size..] == x[size..] + y;
      RestAppend(size, x[size..], y);
    } else {
      assert x + y == y;
    }
  }

  /**
   * Hashing a chunk that is a whole number of blocks and then another chunk
   * mixes the same blocks, in the same order, as hashing the two together.
   */
  lemma {:induction false} BlocksAppend<S(!new)>(mix: (S, seq<byte>) --> S, size: nat, s: S, x: seq<byte>, y: seq<byte>)
    requires size > 0 && MixesBlocks(mix, size) && Aligned(size, x)
    ensures Blocks(mix, size, s, x + y) == Blocks(mix, size, Blocks(mix, size, s, x), y)
    decreases |x|
  {
    if |x| > 0 {
      assert size <= |x|;
      assert (x + y)[..size] == x[..size];
      assert (x + y)[size..] == x[size..] + y;
      var s' := mix(s, x[..size]);
      assert Blocks(mix, size, s, x) == Blocks(mix, size, s', x[size..]);
      assert Blocks(mix, size, s, x + y) == Blocks(mix, size, s', x[size..] + y);
      BlocksAppend(mix, size, s', x[size..], y);
    } else {
      assert x + y == y;
    }
  }

  /** The last block of a block-aligned prefix is mixed last. */
  lemma BlocksSnoc<S(!new)>(mix: (S, seq<byte>) --> S, size: nat, s: S, x: seq<byte>, b: seq<byte>)
    requires size > 0 && MixesBlocks(mix, size) && Aligned(size, x) && |b| == size
    ensures Blocks(mix, size, s, x + b) == mix(Blocks(mix, size, s, x), b)
  {
    BlocksAppend(mix, size, s, x, b);
    assert b[..size] == b && b[size..] == [];
  }

  /** Fewer than `size` bytes after a block-aligned prefix are left to the tail. */
  lemma BlocksShortSuffix<S(!new)>(mix: (S, seq<byte>) --> S, size: nat, s: S, x: seq<byte>, r: seq<byte>)
    requires size > 0 && MixesBlocks(mix, size) && Aligned(size, x) && |r| < size
    ensures Blocks(mix, size, s, x + r) == Blocks(mix, size, s, x)
    ensures Rest(size, x + r) == r
  {
    BlocksAppend(mix, size, s, x, r);
    RestAppend(size, x, r);
  }

  /** A block loop over `data[start..]` starts from an empty, aligned prefix. */
  lemma BlocksStart<S(!new)>(mix: (S, seq<byte>) --> S, size: nat, s: S, data: seq<byte>, start: nat)
    requires size > 0 && MixesBlocks(mix, size) && start <= |data|
    ensures Aligned(size, data[start..start]) && Blocks(mix, size, s, data[start..start]) == s
  {
  }

  /**
   * One step of a block loop over `data[start..]`: mixing the block at `i`
   * extends the fold by one block and keeps the prefix block-aligned.
   */
  lemma BlocksStep<S(!new)>(mix: (S, seq<byte>) --> S, size: nat, s: S, data: seq<byte>, start: nat, i: nat)
    requires size > 0 && MixesBlocks(mix, size) && start <= i && i + size <= |data|
    requires Aligned(size, data[start..i])
    ensures Aligned(size, data[start..i + size])
    ensures Blocks(mix, size, s, data[start..i + size]) == mix(Blocks(mix, size, s, data[start..i]), data[i..i + size])
  {
    assert data[start..i + size] == data[start..i] + data[i..i + size];
    BlocksSnoc(mix, size, s, data[start..i], data[i..i + size]);
    AlignedSnoc(size, data[start..i], data[i..i + size]);
  }

  /**
   * The end of a block loop over `data[start..end]`: once it reaches `aligned`
   * with fewer than `size` bytes to go, it has mixed every whole block of the
   * chunk and what is left is the chunk's `Rest`.
   */
  lemma BlocksThenRest<S(!new)>(mix: (S, seq<byte>) --> S, size: nat, s: S, data: seq<byte>, start: nat, aligned: nat, end: nat)
    requires size > 0 && MixesBlocks(mix, size) && start <= aligned <= end <= |data| && end - aligned < size
    requires Aligned(size, data[start..aligned])
    ensures Blocks(mix, size, s, data[start..end]) == Blocks(mix, size, s, data[start..aligned])
    ensures Rest(size, data[start..end]) == data[aligned..end]
  {
    assert data[start..end] == data[start..aligned] + data[aligned..end];
    BlocksShortSuffix(mix, size, s, data[start..aligned], data[aligned..end]);
  }

  // ---------------------------------------------------------------------
  // Body: the blocks, then the tail
  // ---------------------------------------------------------------------

  /** `tail` is defined on every non-empty remainder shorter than a block. */
  ghost predicate MixesTails<S(!new)>(tail: (S, seq<byte>) --> S, size: nat)
  {
    forall s: S, r: seq<byte> | 0 < |r| < size :: tail.requires(s, r)
  }

  /** What `Body` does to a chunk: mix every whole block, then the leftover bytes if there are any. */
  function BodyFold<S(!new)>(mix: (S, seq<byte>) --> S, tail: (S, seq<byte>) --> S, size: nat, s: S, data: seq<byte>): S
    requires size > 0 && MixesBlocks(mix, size) && MixesTails(tail, size)
  {
    var h := Blocks(mix, size, s, data);
    var r := Rest(size, data);
    if |r| > 0 then tail(h, r) else h
  }

  /** A chunk of whole blocks never reaches the tail. */
  lemma BodyFoldAligned<S(!new)>(mix: (S, seq<byte>) --> S, tail: (S, seq<byte>) --> S, size: nat, s: S, x: seq<byte>)
    requires size > 0 && MixesBlocks(mix, size) && MixesTails(tail, size) && Aligned(size, x)
    ensures BodyFold(mix, tail, size, s, x) == Blocks(mix, size, s, x)
  {
    RestAppend(size, x, []);
    assert x + [] == x;
  }

  /**
   * `Body` on a block-aligned chunk `x` followed by `y` is `Body` on `y` started
   * from the state the blocks of `x` leave.
   */
  lemma BodyFoldAppend<S(!new)>(mix: (S, seq<byte>) --> S, tail: (S, seq<byte>) --> S, size: nat, s: S, x: seq<byte>, y: seq<byte>)
    requires size > 0 && MixesBlocks(mix, size) && MixesTails(tail, size) && Aligned(size, x)
    ensures BodyFold(mix, tail, size, s, x + y) == BodyFold(mix, tail, size, Blocks(mix, size, s, x), y)
  {
    BlocksAppend(mix, size, s, x, y);
    RestAppend(size, x, y);
  }

  /**
   * `Body` on `data[start..end]` once its block loop has reached `aligned` with
   * fewer than `size` bytes to go: the blocks so far, then the tail if any.
   */
  lemma BodyFoldAt<S(!new)>(mix: (S, seq<byte>) --> S, tail: (S, seq<byte>) --> S, size: nat, s: S, data: seq<byte>, start: nat, aligned: nat, end: nat)
    requires size > 0 && MixesBlocks(mix, size) && MixesTails(tail, size)
    requires start <= aligned <= end <= |data| && end - aligned < size
    requires Aligned(size, data[start..aligned])
    ensures var h := Blocks(mix, size, s, data[start..aligned]);
      BodyFold(mix, tail, size, s, data[start..end]) == if end > aligned then tail(h, data[aligned..end]) else h
  {
    BlocksThenRest(mix, size, s, data, start, aligned, end);
  }
}
