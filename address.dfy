/** Address decomposition: the logical shifts that split a 32-bit address
    into tag and set index, and the rebuild of a block address from an L2
    tag and set index used by the inclusion policy. */
module Address {
  import opened Pow2Arith
  import opened Geometry

  /** Logical right shift of a 32-bit word. For a word (x < WORD) a count of
      ADDR_SIZE or more yields 0 (see ShiftByFullWidth). */
  function Shr(x: nat, n: nat): (r: nat)
    ensures r <= x
  {
    DivNonneg(x, Pow2(n));
    x / Pow2(n)
  }

  /** Logical left shift of a 32-bit word, one doubling at a time: bits
      shifted past bit 31 are lost (ShlValue gives the closed form). */
  function Shl(x: nat, n: nat): (r: nat)
    ensures r < WORD
    decreases n
  {
    if n == 0 then x % WORD else Shl((2 * x) % WORD, n - 1)
  }

  /** x << n is x * 2^n reduced modulo 2^32. */
  lemma {:induction false} ShlValue(x: nat, n: nat)
    ensures Shl(x, n) == (x * Pow2(n)) % WORD
    decreases n
  {
    if n > 0 {
      ShlValue((2 * x) % WORD, n - 1);
      ModMulLeft(2 * x, Pow2(n - 1), WORD);
      assert (2 * x) * Pow2(n - 1) == x * Pow2(n);
    }
  }

  /** The guarded shift semantics: shifting a word by its full width or more gives 0. */
  lemma ShiftByFullWidth(x: nat, n: nat)
    requires x < WORD && n >= ADDR_SIZE
    ensures Shr(x, n) == 0 && Shl(x, n) == 0
  {
    WordIsPow2();
    Pow2Monotone(ADDR_SIZE, n);
    SmallDivMod(x, Pow2(n));
    ShlFullWidth(x, n);
  }

  lemma ShlFullWidth(x: nat, n: nat)
    requires n >= ADDR_SIZE
    ensures Shl(x, n) == 0
  {
    WordIsPow2();
    ShlValue(x, n);
    var p := Pow2(n - ADDR_SIZE);
    Pow2Add(n - ADDR_SIZE, ADDR_SIZE);
    assert Pow2(n) == p * WORD;
    MulNatAssoc(x, p, WORD);
    MulDivExact(x * p, WORD);
  }

  /** The tag of an address: addr >> (ADDR_SIZE - tagWidth). */
  function TagOf(addr: nat, w: Widths): (r: nat)
    requires Covers(w)
    ensures addr < WORD ==> r < Pow2(w.tag)
  {
    WordIsPow2();
    Pow2Add(w.tag, ADDR_SIZE - w.tag);
    DivBelow(addr, Pow2(w.tag), Pow2(ADDR_SIZE - w.tag));
    Shr(addr, ADDR_SIZE - w.tag)
  }

  /** The set index of an address: (addr << tagWidth) >> (ADDR_SIZE - indexWidth). */
  function IndexOf(addr: nat, w: Widths): (r: nat)
    requires Covers(w)
    ensures r < Pow2(w.index)
  {
    WordIsPow2();
    Pow2Add(w.index, ADDR_SIZE - w.index);
    DivBelow(Shl(addr, w.tag), Pow2(w.index), Pow2(ADDR_SIZE - w.index));
    Shr(Shl(addr, w.tag), ADDR_SIZE - w.index)
  }

  /** The block number of an address: the address with its offset bits dropped. */
  function BlockOf(addr: nat, w: Widths): nat
  {
    DivNonneg(addr, Pow2(w.offset));
    addr / Pow2(w.offset)
  }

  /** The tag is the high part and the index the low part of the block number. */
  lemma Decompose(addr: nat, w: Widths)
    requires Covers(w)
    ensures TagOf(addr, w) == BlockOf(addr, w) / Pow2(w.index)
    ensures IndexOf(addr, w) == BlockOf(addr, w) % Pow2(w.index)
  {
    var o, i, t := w.offset, w.index, w.tag;
    ShlValue(addr, t);
    Pow2Add(o, i);
    DivDivMod(addr, Pow2(o), Pow2(i));
    WordIsPow2();
    Pow2Add(o + i, t);
    MulScaleDivMod(addr, Pow2(o + i), Pow2(t));
    Pow2Add(o, t);
    MulScaleDivMod(addr % Pow2(o + i), Pow2(o), Pow2(t));
    assert ADDR_SIZE - i == o + t;
  }

  /** The block number is rebuilt from tag and index. */
  lemma BlockFromFields(addr: nat, w: Widths)
    requires Covers(w)
    ensures BlockOf(addr, w) == TagOf(addr, w) * Pow2(w.index) + IndexOf(addr, w)
  {
    Decompose(addr, w);
    DivModIdentity(BlockOf(addr, w), Pow2(w.index));
  }

  /** The tag computed by the inclusion code: evictAddress >> (offset + index). */
  function InclusionTag(ea: nat, w: Widths): (r: nat)
    requires Covers(w)
    ensures ea < WORD ==> r < Pow2(w.tag)
  {
    WordIsPow2();
    Pow2Add(w.tag, ADDR_SIZE - w.tag);
    DivBelow(ea, Pow2(w.tag), Pow2(ADDR_SIZE - w.tag));
    Shr(ea, w.offset + w.index)
  }

  /** The index computed by the inclusion code: (evictAddress << tag) >> (tag + offset). */
  function InclusionIndex(ea: nat, w: Widths): (r: nat)
    requires Covers(w)
    ensures r < Pow2(w.index)
  {
    WordIsPow2();
    Pow2Add(w.index, ADDR_SIZE - w.index);
    DivBelow(Shl(ea, w.tag), Pow2(w.index), Pow2(ADDR_SIZE - w.index));
    Shr(Shl(ea, w.tag), w.tag + w.offset)
  }

  /** The inclusion code splits an address exactly as a lookup does, because
      tag + offset == ADDR_SIZE - index and offset + index == ADDR_SIZE - tag. */
  lemma InclusionSplitAgrees(ea: nat, w: Widths)
    requires Covers(w)
    ensures InclusionTag(ea, w) == TagOf(ea, w)
    ensures InclusionIndex(ea, w) == IndexOf(ea, w)
  {
  }

  /** The block address rebuilt from a tag and a set index under geometry w:
      (tag << (offset + index)) | (index << offset). Each shifted field is a
      32-bit word. For an in-range tag and index the high field is a multiple
      of 2^(offset + index) and the low field is below it (EvictAddressFields),
      so the model adds the fields where the source ors them. */
  function EvictAddress(tag: nat, index: nat, w: Widths): (r: nat)
    ensures r < 2 * WORD
  {
    Shl(tag, w.offset + w.index) + Shl(index, w.offset)
  }

  /** A left shift of a value that fits in the remaining bits loses nothing. */
  lemma ShlExact(x: nat, n: nat)
    requires n <= ADDR_SIZE && x < Pow2(ADDR_SIZE - n)
    ensures Shl(x, n) == x * Pow2(n) < WORD
  {
    WordIsPow2();
    ShlValue(x, n);
    Pow2Add(ADDR_SIZE - n, n);
    MulBelow(x, Pow2(ADDR_SIZE - n), Pow2(n));
    SmallDivMod(x * Pow2(n), WORD);
  }

  /** For an in-range tag and index the rebuilt address is the block number
      tag * 2^index + index followed by offset zero bits. */
  lemma EvictAddressValue(tag: nat, index: nat, w: Widths)
    requires Covers(w) && tag < Pow2(w.tag) && index < Pow2(w.index)
    ensures Shl(tag, w.offset + w.index) == tag * Pow2(w.offset + w.index)
    ensures Shl(index, w.offset) == index * Pow2(w.offset) < Pow2(w.offset + w.index)
    ensures EvictAddress(tag, index, w) == (tag * Pow2(w.index) + index) * Pow2(w.offset) < WORD
  {
    var o, i, t := w.offset, w.index, w.tag;
    ShlExact(tag, o + i);
    Pow2Monotone(i, ADDR_SIZE - o);
    ShlExact(index, o);
    Pow2Add(o, i);
    Pow2Add(o + i, t);
    WordIsPow2();
    var po, pi, pt := Pow2(o), Pow2(i), Pow2(t);
    PackFields(tag, index, po, pi, pt);
    assert Shl(tag, o + i) + Shl(index, o) == tag * (po * pi) + index * po;
  }

  /** For an in-range tag and index the two fields do not overlap, the rebuilt
      address is a word with zero offset bits, and its block number is
      tag * 2^index + index under every geometry with the same offset width. */
  lemma EvictAddressFields(tag: nat, index: nat, w: Widths)
    requires Covers(w) && tag < Pow2(w.tag) && index < Pow2(w.index)
    ensures Shl(tag, w.offset + w.index) % Pow2(w.offset + w.index) == 0
    ensures Shl(index, w.offset) < Pow2(w.offset + w.index)
    ensures EvictAddress(tag, index, w) < WORD
    ensures EvictAddress(tag, index, w) % Pow2(w.offset) == 0
    ensures forall w': Widths :: w'.offset == w.offset ==>
              BlockOf(EvictAddress(tag, index, w), w') == tag * Pow2(w.index) + index
  {
    EvictAddressValue(tag, index, w);
    MulDivExact(tag, Pow2(w.offset + w.index));
    var n := tag * Pow2(w.index) + index;
    MulDivExact(n, Pow2(w.offset));
    assert EvictAddress(tag, index, w) == n * Pow2(w.offset);
    forall w': Widths | w'.offset == w.offset
      ensures BlockOf(EvictAddress(tag, index, w), w') == n
    {
      assert BlockOf(EvictAddress(tag, index, w), w') == (n * Pow2(w.offset)) / Pow2(w.offset);
    }
  }

  /** Rebuilding an L2 block address and splitting it again under the same
      geometry gives back the tag and the set index. */
  lemma EvictAddressRoundTrip(tag: nat, index: nat, w: Widths)
    requires Covers(w) && tag < Pow2(w.tag) && index < Pow2(w.index)
    ensures TagOf(EvictAddress(tag, index, w), w) == tag
    ensures IndexOf(EvictAddress(tag, index, w), w) == index
  {
    EvictAddressFields(tag, index, w);
    Decompose(EvictAddress(tag, index, w), w);
    DivModUnique(tag * Pow2(w.index) + index, Pow2(w.index), tag, index);
  }

  /** Splitting a rebuilt L2 block address under another level's geometry with
      the same offset width gives that block number's high and low parts. */
  lemma EvictAddressUnder(tag: nat, index: nat, w: Widths, w1: Widths)
    requires Covers(w) && tag < Pow2(w.tag) && index < Pow2(w.index)
    requires Covers(w1) && w1.offset == w.offset
    ensures TagOf(EvictAddress(tag, index, w), w1) == (tag * Pow2(w.index) + index) / Pow2(w1.index)
    ensures IndexOf(EvictAddress(tag, index, w), w1) == (tag * Pow2(w.index) + index) % Pow2(w1.index)
  {
    EvictAddressBlock(tag, index, w, w1);
    SplitBlock(EvictAddress(tag, index, w), w1, tag * Pow2(w.index) + index);
  }

  /** The block number of a rebuilt address under a geometry with the same offset width. */
  lemma EvictAddressBlock(tag: nat, index: nat, w: Widths, w1: Widths)
    requires Covers(w) && tag < Pow2(w.tag) && index < Pow2(w.index)
    requires w1.offset == w.offset
    ensures BlockOf(EvictAddress(tag, index, w), w1) == tag * Pow2(w.index) + index
  {
    EvictAddressFields(tag, index, w);
  }

  /** An address with block number n splits into n's high and low parts. */
  lemma SplitBlock(addr: nat, w: Widths, n: nat)
    requires Covers(w) && BlockOf(addr, w) == n
    ensures TagOf(addr, w) == n / Pow2(w.index)
    ensures IndexOf(addr, w) == n % Pow2(w.index)
  {
    Decompose(addr, w);
  }

  // ---- The index computation as written, on hardware that masks shift counts ----

  /** x >> n as x86 executes it: the count is taken modulo 32. */
  function ShrMasked(x: nat, n: nat): (r: nat)
    ensures r <= x
  {
    DivNonneg(x, Pow2(n % ADDR_SIZE));
    x / Pow2(n % ADDR_SIZE)
  }

  /** x << n as x86 executes it: the count is taken modulo 32. */
  function ShlMasked(x: nat, n: nat): nat
  {
    (x * Pow2(n % ADDR_SIZE)) % WORD
  }

  /** The index expression of the source evaluated with masked shift counts. */
  function IndexOfAsWritten(addr: nat, w: Widths): (r: nat)
    requires Covers(w)
    ensures r < WORD
  {
    ShrMasked(ShlMasked(addr, w.tag), ADDR_SIZE - w.index)
  }

  /** With one set (index width 0) and 16-byte blocks the source shifts right
      by 32; with masked counts that is no shift, and address 1 selects set
      2^28 of a one-set cache. The guarded split selects set 0. */
  lemma OneSetIndexAsWritten()
    ensures ResolveWidths(16, 1) == Widths(4, 0, 28)
    ensures IndexOfAsWritten(1, Widths(4, 0, 28)) == Pow2(28) >= 1
    ensures IndexOf(1, Widths(4, 0, 28)) == 0
  {
    OneSetWidths();
    WordIsPow2();
    Pow2StrictMonotone(28, 32);
    SmallDivMod(Pow2(28), WORD);
    OneSetMaskedIndex();
    OneSetGuardedIndex();
  }

  lemma OneSetWidths()
    ensures ResolveWidths(16, 1) == Widths(4, 0, 28)
  {
    assert Log2(16) == 4 by { assert Log2(2) == 1; }
  }

  lemma OneSetMaskedIndex()
    requires Pow2(28) < WORD
    ensures IndexOfAsWritten(1, Widths(4, 0, 28)) == Pow2(28)
  {
    SmallDivMod(Pow2(28), WORD);
    assert ShlMasked(1, 28) == Pow2(28);
  }

  lemma OneSetGuardedIndex()
    requires Pow2(28) < WORD == Pow2(32)
    ensures IndexOf(1, Widths(4, 0, 28)) == 0
  {
    SmallDivMod(Pow2(28), WORD);
    ShlValue(1, 28);
    SmallDivMod(Pow2(28), Pow2(32));
  }
}
