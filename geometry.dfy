/** Geometry resolution: the bit widths of the offset, index and tag fields
    of an address for one cache level (calc_log2 and the width setup of
    init_cache). */
module Geometry {
  import opened Pow2Arith

  /** Width of an address in bits. */
  const ADDR_SIZE: nat := 32

  /** Number of distinct addresses, 2^ADDR_SIZE. */
  const WORD: nat := 0x1_0000_0000

  /** Largest uint32 value: the initial "least recent" bound of the LRU scan. */
  const UINT32_MAX: nat := 0xFFFF_FFFF

  lemma WordIsPow2()
    ensures Pow2(ADDR_SIZE) == WORD
  {
    assert Pow2(8) == 256;
    Pow2Add(8, 8);
    Pow2Add(16, 16);
  }

  /** Integer base-2 logarithm: 0 for x <= 1, otherwise the largest k with 2^k <= x. */
  function Log2(x: nat): (r: nat)
    ensures x <= 1 ==> r == 0
    ensures x >= 1 ==> Pow2(r) <= x < Pow2(r + 1)
  {
    if x <= 1 then 0 else 1 + Log2(x / 2)
  }

  /** x is a power of two. */
  predicate IsPow2(x: nat)
  {
    x == 1 || (x >= 2 && x % 2 == 0 && IsPow2(x / 2))
  }

  lemma {:induction false} Pow2IsPow2(k: nat)
    ensures IsPow2(Pow2(k))
  {
    if k > 0 {
      Pow2IsPow2(k - 1);
      assert Pow2(k) / 2 == Pow2(k - 1);
    }
  }

  /** On powers of two the integer logarithm is exact. */
  lemma {:induction false} Log2OfPow2(k: nat)
    ensures Log2(Pow2(k)) == k
  {
    if k > 0 {
      Log2OfPow2(k - 1);
      assert Pow2(k) / 2 == Pow2(k - 1);
    }
  }

  lemma {:induction false} Pow2OfLog2(x: nat)
    ensures IsPow2(x) ==> Pow2(Log2(x)) == x
  {
    if IsPow2(x) && x != 1 {
      Pow2OfLog2(x / 2);
    }
  }

  /** Field widths of an address: offset (low bits), index (middle), tag (high). */
  datatype Widths = Widths(offset: nat, index: nat, tag: nat)

  /** The three widths of one level cover the address exactly. */
  predicate Covers(w: Widths)
  {
    w.offset + w.index + w.tag == ADDR_SIZE
  }

  /** A configuration init_cache can work with: power-of-two block size,
      set count zero (level absent) or a power of two, at least one line
      per set of a present level, and offset plus index fitting the address. */
  predicate ValidGeometry(blockSize: nat, numSets: nat, assoc: nat)
  {
    IsPow2(blockSize) && (numSets == 0 || IsPow2(numSets)) &&
    (numSets > 0 ==> assoc >= 1) &&
    Log2(blockSize) + Log2(numSets) <= ADDR_SIZE
  }

  /** The width setup of init_cache for one level. */
  function ResolveWidths(blockSize: nat, numSets: nat): (w: Widths)
    requires Log2(blockSize) + Log2(numSets) <= ADDR_SIZE
    ensures Covers(w)
    ensures IsPow2(blockSize) ==> Pow2(w.offset) == blockSize
    ensures IsPow2(numSets) ==> Pow2(w.index) == numSets
    ensures numSets <= 1 ==> w.index == 0
  {
    Pow2OfLog2(blockSize);
    Pow2OfLog2(numSets);
    var offsetSize := Log2(blockSize);
    var indexSize := Log2(numSets);
    Widths(offsetSize, indexSize, ADDR_SIZE - offsetSize - indexSize)
  }
}
