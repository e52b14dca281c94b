/** Properties of the one-level operations: what a lookup, a fill and an
    invalidation do to a level, which blocks the level holds afterwards,
    and the well-formedness facts each of them keeps. */
module LevelProps {
  import opened Pow2Arith
  import opened Geometry
  import opened Address
  import opened LineSet
  import opened HierarchySpec

  /** The block number that a line of set s carrying tag t caches under lc. */
  function BlockNum(lc: LevelConfig, t: nat, s: nat): nat
  {
    t * Pow2(lc.w.index) + s
  }

  /** The set that block n maps to under lc: its low index bits. */
  function SetOfBlock(lc: LevelConfig, n: nat): (r: nat)
    ensures r < Pow2(lc.w.index)
  {
    n % Pow2(lc.w.index)
  }

  /** The tag block n carries under lc: its bits above the index. */
  function TagOfBlock(lc: LevelConfig, n: nat): nat
  {
    DivNonneg(n, Pow2(lc.w.index));
    n / Pow2(lc.w.index)
  }

  /** The level holds block n: the set n selects has a valid line with n's tag. */
  predicate HoldsBlock(lc: LevelConfig, ls: LevelState, n: nat)
  {
    SetOfBlock(lc, n) < |ls.contents| && FindHit(ls.contents[SetOfBlock(lc, n)], TagOfBlock(lc, n)).Some?
  }

  /** No set of the level has two valid lines with one tag. */
  predicate NoDup(ls: LevelState)
  {
    forall s :: 0 <= s < |ls.contents| ==> NoDupTags(ls.contents[s])
  }

  /** b is a with some lines invalidated and nothing else changed. */
  predicate OnlyClears(a: LevelState, b: LevelState)
  {
    |b.contents| == |a.contents| && b.refs == a.refs && b.misses == a.misses &&
    b.penalties == a.penalties &&
    forall s :: 0 <= s < |a.contents| ==>
      |b.contents[s]| == |a.contents[s]| &&
      forall k :: 0 <= k < |a.contents[s]| ==>
        b.contents[s][k].tag == a.contents[s][k].tag &&
        b.contents[s][k].timeStamp == a.contents[s][k].timeStamp &&
        (b.contents[s][k].isValid ==> a.contents[s][k].isValid)
  }

  /** A block number of a set below 2^index splits back into that tag and set. */
  lemma BlockNumSplit(lc: LevelConfig, t: nat, s: nat)
    requires s < Pow2(lc.w.index)
    ensures BlockNum(lc, t, s) % Pow2(lc.w.index) == s
    ensures BlockNum(lc, t, s) / Pow2(lc.w.index) == t
  {
    DivModUnique(BlockNum(lc, t, s), Pow2(lc.w.index), t, s);
  }

  /** The block an address belongs to is the block its tag and set index name. */
  lemma AddressBlock(lc: LevelConfig, addr: nat)
    requires Covers(lc.w)
    ensures BlockNum(lc, TagOf(addr, lc.w), IndexOf(addr, lc.w)) == BlockOf(addr, lc.w)
    ensures BlockOf(addr, lc.w) % Pow2(lc.w.index) == IndexOf(addr, lc.w)
    ensures BlockOf(addr, lc.w) / Pow2(lc.w.index) == TagOf(addr, lc.w)
  {
    BlockFromFields(addr, lc.w);
    Decompose(addr, lc.w);
  }

  // ---------------------------------------------------------------------------
  // is_miss
  // ---------------------------------------------------------------------------

  /** A lookup misses exactly when no valid line of the address's set carries
      its tag; on a hit only the first such line changes, and only its time
      stamp, which becomes the level's clock; no other set is touched. */
  lemma LookupStepEffect(lc: LevelConfig, ls: LevelState, addr: nat)
    requires ValidLevel(lc) && Shaped(lc, ls) && lc.numSets > 0
    ensures var idx := IndexOf(addr, lc.w);
            var tag := TagOf(addr, lc.w);
            var s := ls.contents[idx];
            var r := LookupStep(lc, ls, addr);
            (r.0 <==> forall k :: 0 <= k < |s| ==> !Holds(s[k], tag)) &&
            (r.0 ==> r.1 == ls) &&
            (forall j :: 0 <= j < |ls.contents| && j != idx ==> r.1.contents[j] == ls.contents[j]) &&
            (!r.0 ==> exists h :: 0 <= h < |s| && Holds(s[h], tag) &&
                        (forall k :: 0 <= k < h ==> !Holds(s[k], tag)) &&
                        r.1.contents[idx][h] == s[h].(timeStamp := ls.refs) &&
                        (forall k :: 0 <= k < |s| && k != h ==> r.1.contents[idx][k] == s[k]))
  {
    var idx := IndexOf(addr, lc.w);
    var tag := TagOf(addr, lc.w);
    var s := ls.contents[idx];
    TouchEffect(s, tag, ls.refs);
    var r := LookupStep(lc, ls, addr);
    if r.0 {
      assert ls.contents[idx := s] == ls.contents;
    } else {
      var h := FindHit(s, tag).value;
      assert Holds(s[h], tag);
    }
  }

  /** A lookup that misses leaves the level as it was. */
  lemma LookupMissKeeps(lc: LevelConfig, ls: LevelState, addr: nat)
    requires ValidLevel(lc) && Shaped(lc, ls) && lc.numSets > 0
    ensures LookupStep(lc, ls, addr).0 ==> LookupStep(lc, ls, addr).1 == ls
  {
    var idx := IndexOf(addr, lc.w);
    TouchEffect(ls.contents[idx], TagOf(addr, lc.w), ls.refs);
    assert LookupStep(lc, ls, addr).0 ==> ls.contents[idx := ls.contents[idx]] == ls.contents;
  }

  /** A lookup whose first holder is slot k writes the clock into that
      line's time stamp and nothing else. */
  lemma LookupStepAt(lc: LevelConfig, ls: LevelState, addr: nat, k: nat)
    requires ValidLevel(lc) && Shaped(lc, ls) && lc.numSets > 0
    requires FindHit(ls.contents[IndexOf(addr, lc.w)], TagOf(addr, lc.w)) == Some(k)
    ensures var idx := IndexOf(addr, lc.w);
            var s := ls.contents[idx];
            LookupStep(lc, ls, addr) ==
              (false, ls.(contents := ls.contents[idx := s[k := s[k].(timeStamp := ls.refs)]]))
  {
  }

  /** A lookup does not change which blocks the level holds. */
  lemma LookupKeepsHolds(lc: LevelConfig, ls: LevelState, addr: nat, n: nat)
    requires ValidLevel(lc) && Shaped(lc, ls) && lc.numSets > 0
    ensures HoldsBlock(lc, LookupStep(lc, ls, addr).1, n) == HoldsBlock(lc, ls, n)
  {
    var idx := IndexOf(addr, lc.w);
    var s := ls.contents[idx];
    TouchKeepsHits(s, TagOf(addr, lc.w), ls.refs, TagOfBlock(lc, n));
  }

  /** After a lookup that hits, the level holds the address's block. */
  lemma LookupHoldsAddress(lc: LevelConfig, ls: LevelState, addr: nat)
    requires ValidLevel(lc) && Shaped(lc, ls) && lc.numSets > 0
    ensures !LookupStep(lc, ls, addr).0 ==> HoldsBlock(lc, LookupStep(lc, ls, addr).1, BlockOf(addr, lc.w))
  {
    AddressBlock(lc, addr);
    LookupKeepsHolds(lc, ls, addr, BlockOf(addr, lc.w));
  }

  lemma LookupKeepsBounded(lc: LevelConfig, ls: LevelState, addr: nat)
    requires ValidLevel(lc) && LevelInv(lc, ls) && lc.numSets > 0
    ensures LevelInv(lc, LookupStep(lc, ls, addr).1)
  {
    LookupStepEffect(lc, ls, addr);
  }

  lemma LookupKeepsNoDup(lc: LevelConfig, ls: LevelState, addr: nat)
    requires ValidLevel(lc) && Shaped(lc, ls) && lc.numSets > 0 && NoDup(ls)
    ensures NoDup(LookupStep(lc, ls, addr).1)
  {
    var idx := IndexOf(addr, lc.w);
    TouchKeepsNoDup(ls.contents[idx], TagOf(addr, lc.w), ls.refs);
  }

  // ---------------------------------------------------------------------------
  // lru_add
  // ---------------------------------------------------------------------------

  /** A fill writes Line(tag, clock, valid) into one slot of the address's set
      and changes nothing else. The slot is the first invalid line, and then
      the result is -1; or, when every line is valid, it is the first line
      with the least time stamp, the result is that slot and the reported
      victim tag is the tag the slot held before the write. */
  lemma FillStepEffect(lc: LevelConfig, ls: LevelState, addr: nat)
    requires ValidLevel(lc) && Shaped(lc, ls) && lc.numSets > 0
    ensures var idx := IndexOf(addr, lc.w);
            var s := ls.contents[idx];
            var j := FillSlot(s);
            var f := FillStep(lc, ls, addr);
            f.state.contents[idx][j] == Line(TagOf(addr, lc.w), ls.refs, true) &&
            (forall k :: 0 <= k < |s| && k != j ==> f.state.contents[idx][k] == s[k]) &&
            (forall i :: 0 <= i < |ls.contents| && i != idx ==> f.state.contents[i] == ls.contents[i]) &&
            (f.evict == -1 <==> exists k :: 0 <= k < |s| && !s[k].isValid) &&
            (f.evict == -1 ==> !s[j].isValid && forall k :: 0 <= k < j ==> s[k].isValid) &&
            (f.evict >= 0 ==>
               f.evict == j && f.victimTag == s[j].tag &&
               (forall k :: 0 <= k < |s| ==> s[k].isValid && s[j].timeStamp <= s[k].timeStamp) &&
               (forall k :: 0 <= k < j ==> s[j].timeStamp < s[k].timeStamp))
  {
    var idx := IndexOf(addr, lc.w);
    var s := ls.contents[idx];
    InstallEffect(s, TagOf(addr, lc.w), ls.refs);
    if FirstInvalid(s).Some? {
      assert !s[FirstInvalid(s).value].isValid;
    }
  }

  /** A fill into slot j of a set writes the new line there; the slot is
      reported, with its old tag, only when the set was full. */
  lemma FillStepAt(lc: LevelConfig, ls: LevelState, addr: nat, j: nat)
    requires ValidLevel(lc) && Shaped(lc, ls) && lc.numSets > 0
    requires j == FillSlot(ls.contents[IndexOf(addr, lc.w)])
    ensures var idx := IndexOf(addr, lc.w);
            var s := ls.contents[idx];
            var full := FirstInvalid(s).None?;
            FillStep(lc, ls, addr) ==
              FillResult(ls.(contents := ls.contents[idx := s[j := Line(TagOf(addr, lc.w), ls.refs, true)]]),
                         if full then j else -1, if full then s[j].tag else 0)
  {
  }

  /** Every line after a fill is the line before, or the newly written line of
      the address's set. */
  lemma FillStepLines(lc: LevelConfig, ls: LevelState, addr: nat)
    requires ValidLevel(lc) && Shaped(lc, ls) && lc.numSets > 0
    ensures var f := FillStep(lc, ls, addr);
            forall s, k :: 0 <= s < |ls.contents| && 0 <= k < |ls.contents[s]| ==>
              f.state.contents[s][k] == ls.contents[s][k] ||
              (s == IndexOf(addr, lc.w) && f.state.contents[s][k] == Line(TagOf(addr, lc.w), ls.refs, true))
  {
    FillStepEffect(lc, ls, addr);
  }

  /** After a fill the level holds the address's block. */
  lemma FillHoldsAddress(lc: LevelConfig, ls: LevelState, addr: nat)
    requires ValidLevel(lc) && Shaped(lc, ls) && lc.numSets > 0
    ensures HoldsBlock(lc, FillStep(lc, ls, addr).state, BlockOf(addr, lc.w))
  {
    AddressBlock(lc, addr);
    InstallEffect(ls.contents[IndexOf(addr, lc.w)], TagOf(addr, lc.w), ls.refs);
  }

  /** A fill keeps every block the level held, except the block of the replaced
      line when the set was full. */
  lemma FillKeepsHolds(lc: LevelConfig, ls: LevelState, addr: nat, n: nat)
    requires ValidLevel(lc) && Shaped(lc, ls) && lc.numSets > 0
    requires HoldsBlock(lc, ls, n)
    ensures var f := FillStep(lc, ls, addr);
            HoldsBlock(lc, f.state, n) ||
            (f.evict >= 0 && n == BlockNum(lc, f.victimTag, IndexOf(addr, lc.w)))
  {
    var idx := IndexOf(addr, lc.w);
    var s := ls.contents[idx];
    var p := Pow2(lc.w.index);
    var f := FillStep(lc, ls, addr);
    if n % p == idx {
      var t' := n / p;
      var k := FindHit(s, t').value;
      if FirstInvalid(s).None? && k == LruVictim(s) {
        assert f.evict == k && f.victimTag == t';
        DivModIdentity(n, p);
      } else {
        InstallKeepsOthers(s, TagOf(addr, lc.w), ls.refs, t');
      }
    }
  }

  lemma FillKeepsBounded(lc: LevelConfig, ls: LevelState, addr: nat)
    requires ValidLevel(lc) && LevelInv(lc, ls) && lc.numSets > 0 && addr < WORD
    ensures LevelInv(lc, FillStep(lc, ls, addr).state)
  {
    FillStepLines(lc, ls, addr);
  }

  /** Filling a tag the set does not hold keeps tags unique. */
  lemma FillKeepsNoDup(lc: LevelConfig, ls: LevelState, addr: nat)
    requires ValidLevel(lc) && Shaped(lc, ls) && lc.numSets > 0 && NoDup(ls)
    requires FindHit(ls.contents[IndexOf(addr, lc.w)], TagOf(addr, lc.w)).None?
    ensures NoDup(FillStep(lc, ls, addr).state)
  {
    InstallKeepsNoDup(ls.contents[IndexOf(addr, lc.w)], TagOf(addr, lc.w), ls.refs);
  }

  // ---------------------------------------------------------------------------
  // The invalidation loops of lru_evict
  // ---------------------------------------------------------------------------

  /** Invalidation only clears lines. */
  lemma InvalidateOnlyClears(lc: LevelConfig, ls: LevelState, ea: nat)
    requires ValidLevel(lc) && Shaped(lc, ls)
    ensures OnlyClears(ls, InvalidateBlock(lc, ls, ea))
  {
    if lc.numSets > 0 {
      InclusionSplitAgrees(ea, lc.w);
      InvalidatedEffect(ls.contents[InclusionIndex(ea, lc.w)], InclusionTag(ea, lc.w));
    }
  }

  /** Invalidating the block rebuilt from an L2 tag and set index clears
      exactly the valid lines that cache that block, whatever this level's
      own set count, provided it shares the L2's block size. */
  lemma InvalidateExactlyVictim(lc: LevelConfig, ls: LevelState, l2c: LevelConfig, vt: nat, vi: nat)
    requires ValidLevel(lc) && Shaped(lc, ls) && Covers(l2c.w) && lc.w.offset == l2c.w.offset
    requires vt < Pow2(l2c.w.tag) && vi < Pow2(l2c.w.index)
    ensures var r := InvalidateBlock(lc, ls, EvictAddress(vt, vi, l2c.w));
            OnlyClears(ls, r) &&
            forall s, k :: 0 <= s < |ls.contents| && 0 <= k < |ls.contents[s]| ==>
              (r.contents[s][k].isValid <==>
                 ls.contents[s][k].isValid && BlockNum(lc, ls.contents[s][k].tag, s) != BlockNum(l2c, vt, vi))
  {
    var ea := EvictAddress(vt, vi, l2c.w);
    var r := InvalidateBlock(lc, ls, ea);
    InvalidateOnlyClears(lc, ls, ea);
    if lc.numSets > 0 {
      var n := BlockNum(l2c, vt, vi);
      var p := Pow2(lc.w.index);
      EvictAddressUnder(vt, vi, l2c.w, lc.w);
      InclusionSplitAgrees(ea, lc.w);
      var idx, tg := n % p, n / p;
      InvalidatedEffect(ls.contents[idx], tg);
      forall s, k | 0 <= s < |ls.contents| && 0 <= k < |ls.contents[s]|
        ensures r.contents[s][k].isValid <==>
                ls.contents[s][k].isValid && BlockNum(lc, ls.contents[s][k].tag, s) != n
      {
        var t := ls.contents[s][k].tag;
        BlockNumSplit(lc, t, s);
        if s == idx {
          if t == tg {
            DivModIdentity(n, p);
          }
        }
      }
    }
  }

  lemma OnlyClearsKeepsInv(lc: LevelConfig, a: LevelState, b: LevelState)
    requires LevelInv(lc, a) && OnlyClears(a, b)
    ensures LevelInv(lc, b)
  {
  }

  lemma OnlyClearsKeepsNoDup(a: LevelState, b: LevelState)
    requires NoDup(a) && OnlyClears(a, b)
    ensures NoDup(b)
  {
  }

  /** A tag missing from a set stays missing when lines are only cleared. */
  lemma OnlyClearsKeepsMiss(a: LevelState, b: LevelState, i: nat, t: nat)
    requires OnlyClears(a, b) && i < |a.contents| && FindHit(a.contents[i], t).None?
    ensures FindHit(b.contents[i], t).None?
  {
  }
}
