/** Two ordering defects of the live access code, modelled as written and
    set against the corrected pipeline of HierarchySpec that the rest of the
    model uses.

    1. l2cache_access switches the level selector to L2 before returning, so
       the lru_add that follows it in icache_access and dcache_access fills
       L2 a second time instead of the first-level cache.
    2. lru_evict reads the replaced line's tag after lru_add has overwritten
       it, so under the inclusion policy it invalidates the block just
       fetched instead of the block L2 dropped. While defect 1 stands, I$ and
       D$ are never filled, so this one shows only once the first-level fills
       are corrected. */
module Findings {
  import opened Pow2Arith
  import opened Geometry
  import opened Address
  import opened LineSet
  import opened HierarchySpec
  import opened LevelProps
  import opened HierarchyProps

  // ---------------------------------------------------------------------------
  // 1. The first-level fill lands in L2
  // ---------------------------------------------------------------------------

  /** The miss path of icache_access / dcache_access as written: count the
      miss, access L2, then lru_add with the selector left at L2, which
      installs the block in L2 with the L2 clock and ignores the replaced
      slot; the first-level cache only gets its penalty added. An absent L2
      is excluded because lru_add then indexes a set list of length 0. */
  function L1MissAsWritten(cfg: Config, h: HState, side: Side, addr: nat): (r: (HState, nat))
    requires ValidConfig(cfg) && Shapes(cfg, h) && L1Config(cfg, side).numSets > 0 && cfg.l2.numSets > 0
    ensures Shapes(cfg, r.0)
  {
    var l2r := L2Step(cfg, MissCounted(h, side), addr);
    var f := FillStep(cfg.l2, l2r.0.l2, addr);
    var h1 := l2r.0.(l2 := f.state);
    var ls := L1State(h1, side);
    (WithL1(h1, side, ls.(penalties := ls.penalties + l2r.1)), L1Config(cfg, side).hitTime + l2r.1)
  }

  /** As written, a first-level miss never brings the block into that
      cache: after the access it still does not hold the address's block,
      although the latency reported is the one of the corrected miss path.
      Compare HierarchyProps.L1MissHoldsAddress. */
  lemma L1MissAsWrittenLeavesBlockOut(cfg: Config, h: HState, side: Side, addr: nat)
    requires ValidConfig(cfg) && Shapes(cfg, h) && L1Config(cfg, side).numSets > 0 && cfg.l2.numSets > 0
    requires !L1Hits(cfg, h, side, addr)
    ensures !HoldsBlock(L1Config(cfg, side), L1State(L1MissAsWritten(cfg, h, side, addr).0, side),
                        BlockOf(addr, L1Config(cfg, side).w))
    ensures L1MissAsWritten(cfg, h, side, addr).1 == L1Miss(cfg, h, side, addr).1
  {
    var lc := L1Config(cfg, side);
    var h0 := MissCounted(h, side);
    assert L1State(h0, side).contents == L1State(h, side).contents;
    var l2r := L2Step(cfg, h0, addr);
    L2StepClearsL1(cfg, h0, addr, side);
    OnlyClearsKeepsMiss(L1State(h0, side), L1State(l2r.0, side), IndexOf(addr, lc.w), TagOf(addr, lc.w));
    AddressBlock(lc, addr);
  }

  // ---------------------------------------------------------------------------
  // 2. The inclusion step reads the overwritten tag
  // ---------------------------------------------------------------------------

  /** The tag lru_evict reads: the replaced slot of the L2 set after the fill. */
  function OverwrittenTag(cfg: Config, l2: LevelState, addr: nat): (r: nat)
    requires ValidLevel(cfg.l2) && Shaped(cfg.l2, l2) && cfg.l2.numSets > 0
    requires FillStep(cfg.l2, l2, addr).evict >= 0
    ensures var f := FillStep(cfg.l2, l2, addr);
            Holds(f.state.contents[IndexOf(addr, cfg.l2.w)][f.evict], r)
  {
    var f := FillStep(cfg.l2, l2, addr);
    FillStepEffect(cfg.l2, l2, addr);
    f.state.contents[IndexOf(addr, cfg.l2.w)][f.evict].tag
  }

  /** The miss path of l2cache_access as written: the inclusion step rebuilds
      the evicted address from the tag found in the replaced slot after
      lru_add has written the new tag there. */
  function L2MissAsWritten(cfg: Config, h: HState, addr: nat): (r: (HState, nat))
    requires ValidConfig(cfg) && Shapes(cfg, h) && cfg.l2.numSets > 0
    ensures Shapes(cfg, r.0)
  {
    var l2m := h.l2.(misses := h.l2.misses + 1, penalties := h.l2.penalties + cfg.memspeed);
    var f := FillStep(cfg.l2, l2m, addr);
    var h1 := h.(l2 := f.state);
    var h2 := if cfg.inclusive && f.evict >= 0
              then EvictStep(cfg, h1, OverwrittenTag(cfg, l2m, addr), IndexOf(addr, cfg.l2.w)) else h1;
    (h2, cfg.l2.hitTime + cfg.memspeed)
  }

  /** Whenever a line is replaced, the tag read back from its slot is the
      new address's own tag, never the victim's. */
  lemma OverwrittenTagIsNewTag(cfg: Config, l2: LevelState, addr: nat)
    requires ValidLevel(cfg.l2) && Shaped(cfg.l2, l2) && cfg.l2.numSets > 0
    requires FillStep(cfg.l2, l2, addr).evict >= 0
    ensures OverwrittenTag(cfg, l2, addr) == TagOf(addr, cfg.l2.w)
  {
    var idx := IndexOf(addr, cfg.l2.w);
    InstallEffect(l2.contents[idx], TagOf(addr, cfg.l2.w), l2.refs);
  }

  /** As written, the inclusion policy fails whenever an L2 miss replaces a
      block that a first-level cache holds: L2 drops the victim block, but
      the inclusion step invalidates the fetched block instead, so the line
      caching the victim stays valid above an L2 that no longer holds it.
      Such a first-level line exists only once the first-level fills are
      corrected (defect 1). For example, with 16-byte blocks, a one-line I$ and a one-line L2
      that both hold block 0, a miss on address 16 leaves I$ holding block 0
      and L2 holding only block 1. The corrected miss path keeps the
      first-level cache included (HierarchyProps.L2MissKeepsIncluded). */
  lemma L2MissAsWrittenBreaksInclusion(cfg: Config, h: HState, addr: nat, side: Side, s: nat, k: nat)
    requires Inv(cfg, h) && NoDup(h.l2) && cfg.inclusive && cfg.l2.numSets > 0 && addr < WORD
    requires !L2Hits(cfg, h, addr) && FirstInvalid(L2Set(cfg, h, addr)).None?
    requires s < |L1State(h, side).contents| && k < |L1State(h, side).contents[s]|
    requires L1State(h, side).contents[s][k].isValid
    requires BlockNum(L1Config(cfg, side), L1State(h, side).contents[s][k].tag, s) ==
             BlockNum(cfg.l2, L2Set(cfg, h, addr)[LruVictim(L2Set(cfg, h, addr))].tag, IndexOf(addr, cfg.l2.w))
    ensures !IncludedIn(L1Config(cfg, side), L1State(L2MissAsWritten(cfg, h, addr).0, side),
                        cfg.l2, L2MissAsWritten(cfg, h, addr).0.l2)
  {
    var lc := L1Config(cfg, side);
    var a := L1State(h, side);
    var l2m := h.l2.(misses := h.l2.misses + 1, penalties := h.l2.penalties + cfg.memspeed);
    var f := FillStep(cfg.l2, l2m, addr);
    var idx2 := IndexOf(addr, cfg.l2.w);
    var ls2 := L2Set(cfg, h, addr);
    var v := LruVictim(ls2);
    var nt := TagOf(addr, cfg.l2.w);
    var vt := ls2[v].tag;
    FillStepEffect(cfg.l2, l2m, addr);
    assert f.evict == v;
    assert vt != nt by { assert ls2[v].isValid && !Holds(ls2[v], nt); }
    OverwrittenTagIsNewTag(cfg, l2m, addr);
    var r := L2MissAsWritten(cfg, h, addr).0;
    // I$ or D$: the line caching the victim block survives
    InvalidateExactlyVictim(lc, a, cfg.l2, nt, idx2);
    BlockNumSplit(cfg.l2, vt, idx2);
    BlockNumSplit(cfg.l2, nt, idx2);
    var b := L1State(r, side);
    assert b.contents[s][k].isValid && b.contents[s][k].tag == a.contents[s][k].tag;
    // L2: the victim block is gone
    var vb := BlockNum(cfg.l2, vt, idx2);
    var ns := r.l2.contents[idx2];
    forall j | 0 <= j < |ns| ensures !Holds(ns[j], vt)
    {
      if j != v {
        assert ns[j] == ls2[j];
      }
    }
    assert !HoldsBlock(cfg.l2, r.l2, vb);
  }
}
