/** Properties of the access pipeline: the statistics and latency of each
    access path, the invariants every access preserves (shape, bounds,
    unique tags), that an access leaves its block cached, and that with the
    inclusion policy every block in I$ or D$ is also in L2. */
module HierarchyProps {
  import opened Pow2Arith
  import opened Geometry
  import opened Address
  import opened LineSet
  import opened HierarchySpec
  import opened LevelProps

  predicate AllNoDup(h: HState)
  {
    NoDup(h.icache) && NoDup(h.dcache) && NoDup(h.l2)
  }

  /** Every valid line of the first-level state ls caches a block the L2 holds. */
  predicate IncludedIn(lc: LevelConfig, ls: LevelState, l2c: LevelConfig, l2s: LevelState)
  {
    forall s, k :: 0 <= s < |ls.contents| && 0 <= k < |ls.contents[s]| && ls.contents[s][k].isValid ==>
      HoldsBlock(l2c, l2s, BlockNum(lc, ls.contents[s][k].tag, s))
  }

  /** The inclusion property: I$ and D$ hold only blocks that L2 holds. */
  predicate Inclusive(cfg: Config, h: HState)
  {
    IncludedIn(cfg.icache, h.icache, cfg.l2, h.l2) && IncludedIn(cfg.dcache, h.dcache, cfg.l2, h.l2)
  }

  /** Every valid line of b is a valid line of a, at the same place with the same tag. */
  predicate Retains(a: LevelState, b: LevelState)
  {
    forall s, k :: 0 <= s < |b.contents| && 0 <= k < |b.contents[s]| && b.contents[s][k].isValid ==>
      s < |a.contents| && k < |a.contents[s]| &&
      a.contents[s][k].isValid && a.contents[s][k].tag == b.contents[s][k].tag
  }

  lemma RetainsKeepsIncluded(lc: LevelConfig, a: LevelState, b: LevelState, l2c: LevelConfig, l2s: LevelState)
    requires IncludedIn(lc, a, l2c, l2s) && Retains(a, b)
    ensures IncludedIn(lc, b, l2c, l2s)
  {
    forall s, k | 0 <= s < |b.contents| && 0 <= k < |b.contents[s]| && b.contents[s][k].isValid
      ensures HoldsBlock(l2c, l2s, BlockNum(lc, b.contents[s][k].tag, s))
    {
      assert a.contents[s][k].isValid;
    }
  }

  lemma WithL1Inv(cfg: Config, h: HState, side: Side, ls: LevelState)
    requires Inv(cfg, h) && LevelInv(L1Config(cfg, side), ls)
    ensures Inv(cfg, WithL1(h, side, ls))
  {
  }

  // ---------------------------------------------------------------------------
  // The initial state
  // ---------------------------------------------------------------------------

  /** init_cache produces a state that satisfies every invariant. */
  lemma InitStateInvariants(cfg: Config)
    requires ValidConfig(cfg)
    ensures Inv(cfg, InitState(cfg)) && AllNoDup(InitState(cfg)) && Inclusive(cfg, InitState(cfg))
  {
    var h := InitState(cfg);
    assert forall s, k :: 0 <= s < |h.icache.contents| && 0 <= k < |h.icache.contents[s]| ==>
      !h.icache.contents[s][k].isValid;
    assert forall s, k :: 0 <= s < |h.dcache.contents| && 0 <= k < |h.dcache.contents[s]| ==>
      !h.dcache.contents[s][k].isValid;
    assert forall s, k :: 0 <= s < |h.l2.contents| && 0 <= k < |h.l2.contents[s]| ==>
      !h.l2.contents[s][k].isValid;
  }

  /** A level never holds more valid lines per set than its associativity. */
  lemma LevelCapacity(lc: LevelConfig, ls: LevelState)
    requires Shaped(lc, ls)
    ensures forall s :: 0 <= s < |ls.contents| ==> ValidCount(ls.contents[s]) <= lc.assoc
  {
    forall s | 0 <= s < |ls.contents|
      ensures ValidCount(ls.contents[s]) <= lc.assoc
    {
      ValidCountBound(ls.contents[s]);
    }
  }

  /** Under the invariant, every set of I$, D$ and L2 holds at most
      associativity valid lines. */
  lemma CapacityBound(cfg: Config, h: HState)
    requires Inv(cfg, h)
    ensures forall s :: 0 <= s < |h.icache.contents| ==> ValidCount(h.icache.contents[s]) <= cfg.icache.assoc
    ensures forall s :: 0 <= s < |h.dcache.contents| ==> ValidCount(h.dcache.contents[s]) <= cfg.dcache.assoc
    ensures forall s :: 0 <= s < |h.l2.contents| ==> ValidCount(h.l2.contents[s]) <= cfg.l2.assoc
  {
    LevelCapacity(cfg.icache, h.icache);
    LevelCapacity(cfg.dcache, h.dcache);
    LevelCapacity(cfg.l2, h.l2);
  }

  // ---------------------------------------------------------------------------
  // l2cache_access: statistics, latency, and what it does to I$ and D$
  // ---------------------------------------------------------------------------

  /** The L2 set and tag an address selects. */
  function L2Set(cfg: Config, h: HState, addr: nat): seq<Line>
    requires ValidConfig(cfg) && Shapes(cfg, h) && cfg.l2.numSets > 0
  {
    h.l2.contents[IndexOf(addr, cfg.l2.w)]
  }

  predicate L2Hits(cfg: Config, h: HState, addr: nat)
    requires ValidConfig(cfg) && Shapes(cfg, h) && cfg.l2.numSets > 0
  {
    FindHit(L2Set(cfg, h, addr), TagOf(addr, cfg.l2.w)).Some?
  }

  /** An absent L2 is skipped: the access costs memspeed and changes nothing. */
  lemma L2AccessBypass(cfg: Config, h: HState, addr: nat)
    requires ValidConfig(cfg) && Shapes(cfg, h) && cfg.l2.numSets == 0
    ensures L2Step(cfg, h, addr) == (h, cfg.memspeed)
  {
  }

  /** A hit takes the hit branch: the L2 as the lookup leaves it, at the L2 hit time. */
  lemma L2StepHit(cfg: Config, h: HState, addr: nat)
    requires ValidConfig(cfg) && Shapes(cfg, h) && cfg.l2.numSets > 0 && L2Hits(cfg, h, addr)
    ensures var look := LookupStep(cfg.l2, h.l2.(refs := h.l2.refs + 1), addr);
            !look.0 && L2Step(cfg, h, addr).0 == h.(l2 := look.1) && L2Step(cfg, h, addr).1 == cfg.l2.hitTime
  {
    L2HitsLookup(cfg, h, addr);
    L2HitBranch(cfg, h, addr);
  }

  /** The lookup of an L2 access reports a hit exactly when the address's
      set holds its tag. */
  lemma L2HitsLookup(cfg: Config, h: HState, addr: nat)
    requires ValidConfig(cfg) && Shapes(cfg, h) && cfg.l2.numSets > 0
    ensures L2Hits(cfg, h, addr) <==> !LookupStep(cfg.l2, h.l2.(refs := h.l2.refs + 1), addr).0
  {
    var l2 := h.l2.(refs := h.l2.refs + 1);
    assert l2.contents == h.l2.contents;
  }

  lemma L2HitBranch(cfg: Config, h: HState, addr: nat)
    requires ValidConfig(cfg) && Shapes(cfg, h) && cfg.l2.numSets > 0
    requires !LookupStep(cfg.l2, h.l2.(refs := h.l2.refs + 1), addr).0
    ensures var look := LookupStep(cfg.l2, h.l2.(refs := h.l2.refs + 1), addr);
            L2Step(cfg, h, addr).0 == h.(l2 := look.1) && L2Step(cfg, h, addr).1 == cfg.l2.hitTime
  {
  }

  /** An L2 hit counts a reference, costs the L2 hit time, changes which
      blocks L2 holds not at all, and leaves I$ and D$ alone. */
  lemma L2AccessHit(cfg: Config, h: HState, addr: nat)
    requires ValidConfig(cfg) && Shapes(cfg, h) && cfg.l2.numSets > 0 && L2Hits(cfg, h, addr)
    ensures var r := L2Step(cfg, h, addr);
            r.1 == cfg.l2.hitTime &&
            r.0.l2.refs == h.l2.refs + 1 && r.0.l2.misses == h.l2.misses &&
            r.0.l2.penalties == h.l2.penalties &&
            r.0.icache == h.icache && r.0.dcache == h.dcache &&
            forall n :: HoldsBlock(cfg.l2, r.0.l2, n) == HoldsBlock(cfg.l2, h.l2, n)
  {
    var l2 := h.l2.(refs := h.l2.refs + 1);
    L2StepHit(cfg, h, addr);
    var after := LookupStep(cfg.l2, l2, addr).1;
    forall n ensures HoldsBlock(cfg.l2, after, n) == HoldsBlock(cfg.l2, h.l2, n) {
      LookupKeepsHolds(cfg.l2, l2, addr, n);
      assert HoldsBlock(cfg.l2, l2, n) == HoldsBlock(cfg.l2, h.l2, n);
    }
  }

  lemma L2MissBranch(cfg: Config, h: HState, addr: nat)
    requires ValidConfig(cfg) && Shapes(cfg, h) && cfg.l2.numSets > 0
    requires LookupStep(cfg.l2, h.l2.(refs := h.l2.refs + 1), addr).0
    ensures L2Step(cfg, h, addr) == L2Miss(cfg, h.(l2 := h.l2.(refs := h.l2.refs + 1)), addr)
  {
  }

  /** A miss goes down the miss path with the reference already counted. */
  lemma L2StepMiss(cfg: Config, h: HState, addr: nat)
    requires ValidConfig(cfg) && Shapes(cfg, h) && cfg.l2.numSets > 0 && !L2Hits(cfg, h, addr)
    ensures L2Step(cfg, h, addr) == L2Miss(cfg, h.(l2 := h.l2.(refs := h.l2.refs + 1)), addr)
  {
  }

  /** The miss path counts a miss, adds memspeed to the L2 penalties, costs
      hit time plus memspeed and fills the block; I$ and D$ change only under
      the inclusion policy when the fill replaced a line. */
  lemma L2MissEffect(cfg: Config, h: HState, addr: nat)
    requires ValidConfig(cfg) && Shapes(cfg, h) && cfg.l2.numSets > 0
    ensures var r := L2Miss(cfg, h, addr);
            var s := L2Set(cfg, h, addr);
            r.1 == cfg.l2.hitTime + cfg.memspeed &&
            r.0.l2.refs == h.l2.refs && r.0.l2.misses == h.l2.misses + 1 &&
            r.0.l2.penalties == h.l2.penalties + cfg.memspeed &&
            HoldsBlock(cfg.l2, r.0.l2, BlockOf(addr, cfg.l2.w)) &&
            ((!cfg.inclusive || exists k :: 0 <= k < |s| && !s[k].isValid) ==>
               r.0.icache == h.icache && r.0.dcache == h.dcache)
  {
    var l2m := h.l2.(misses := h.l2.misses + 1, penalties := h.l2.penalties + cfg.memspeed);
    FillStepEffect(cfg.l2, l2m, addr);
    FillHoldsAddress(cfg.l2, l2m, addr);
  }

  /** An L2 miss counts a reference and a miss, adds memspeed to the L2
      penalties, costs hit time plus memspeed, and leaves the block in L2.
      I$ and D$ change only under the inclusion policy when the set was full. */
  lemma L2AccessMiss(cfg: Config, h: HState, addr: nat)
    requires ValidConfig(cfg) && Shapes(cfg, h) && cfg.l2.numSets > 0 && !L2Hits(cfg, h, addr)
    ensures var r := L2Step(cfg, h, addr);
            var s := L2Set(cfg, h, addr);
            r.1 == cfg.l2.hitTime + cfg.memspeed &&
            r.0.l2.refs == h.l2.refs + 1 && r.0.l2.misses == h.l2.misses + 1 &&
            r.0.l2.penalties == h.l2.penalties + cfg.memspeed &&
            HoldsBlock(cfg.l2, r.0.l2, BlockOf(addr, cfg.l2.w)) &&
            ((!cfg.inclusive || exists k :: 0 <= k < |s| && !s[k].isValid) ==>
               r.0.icache == h.icache && r.0.dcache == h.dcache)
  {
    L2StepMiss(cfg, h, addr);
    L2MissEffect(cfg, h.(l2 := h.l2.(refs := h.l2.refs + 1)), addr);
  }

  /** Under the inclusion policy, a miss path that replaces a line
      invalidates in I$ and D$ exactly the lines caching the replaced block,
      whose number is rebuilt from the replaced line's old tag and the set. */
  lemma L2MissBackInvalidates(cfg: Config, h: HState, addr: nat, side: Side)
    requires Inv(cfg, h) && cfg.l2.numSets > 0 && cfg.inclusive
    requires forall k :: 0 <= k < cfg.l2.assoc ==> L2Set(cfg, h, addr)[k].isValid
    ensures var idx := IndexOf(addr, cfg.l2.w);
            var s := L2Set(cfg, h, addr);
            var victim := BlockNum(cfg.l2, s[LruVictim(s)].tag, idx);
            var a := L1State(h, side);
            var b := L1State(L2Miss(cfg, h, addr).0, side);
            OnlyClears(a, b) &&
            forall t, k :: 0 <= t < |a.contents| && 0 <= k < |a.contents[t]| ==>
              (b.contents[t][k].isValid <==>
                 a.contents[t][k].isValid && BlockNum(L1Config(cfg, side), a.contents[t][k].tag, t) != victim)
  {
    var idx := IndexOf(addr, cfg.l2.w);
    var l2m := h.l2.(misses := h.l2.misses + 1, penalties := h.l2.penalties + cfg.memspeed);
    FillStepEffect(cfg.l2, l2m, addr);
    var f := FillStep(cfg.l2, l2m, addr);
    var s := L2Set(cfg, h, addr);
    assert FirstInvalid(s).None?;
    assert f.evict == LruVictim(s) && f.victimTag == s[LruVictim(s)].tag;
    InvalidateExactlyVictim(L1Config(cfg, side), L1State(h, side), cfg.l2, f.victimTag, idx);
  }

  /** The same for a whole L2 access that misses on a full set. */
  lemma L2AccessBackInvalidates(cfg: Config, h: HState, addr: nat, side: Side)
    requires Inv(cfg, h) && cfg.l2.numSets > 0 && cfg.inclusive && !L2Hits(cfg, h, addr)
    requires forall k :: 0 <= k < cfg.l2.assoc ==> L2Set(cfg, h, addr)[k].isValid
    ensures var idx := IndexOf(addr, cfg.l2.w);
            var s := L2Set(cfg, h, addr);
            var victim := BlockNum(cfg.l2, s[LruVictim(s)].tag, idx);
            var a := L1State(h, side);
            var b := L1State(L2Step(cfg, h, addr).0, side);
            OnlyClears(a, b) &&
            forall t, k :: 0 <= t < |a.contents| && 0 <= k < |a.contents[t]| ==>
              (b.contents[t][k].isValid <==>
                 a.contents[t][k].isValid && BlockNum(L1Config(cfg, side), a.contents[t][k].tag, t) != victim)
  {
    L2StepMiss(cfg, h, addr);
    L2MissBackInvalidates(cfg, h.(l2 := h.l2.(refs := h.l2.refs + 1)), addr, side);
  }

  /** The miss path only ever clears lines of I$ and D$, and without the
      inclusion policy leaves them untouched. */
  lemma L2MissClearsL1(cfg: Config, h: HState, addr: nat, side: Side)
    requires ValidConfig(cfg) && Shapes(cfg, h) && cfg.l2.numSets > 0
    ensures OnlyClears(L1State(h, side), L1State(L2Miss(cfg, h, addr).0, side))
    ensures !cfg.inclusive ==> L1State(L2Miss(cfg, h, addr).0, side) == L1State(h, side)
  {
    var l2m := h.l2.(misses := h.l2.misses + 1, penalties := h.l2.penalties + cfg.memspeed);
    var f := FillStep(cfg.l2, l2m, addr);
    if cfg.inclusive && f.evict >= 0 {
      InvalidateOnlyClears(L1Config(cfg, side), L1State(h, side),
                           EvictAddress(f.victimTag, IndexOf(addr, cfg.l2.w), cfg.l2.w));
    }
  }

  /** An L2 access only ever clears lines of I$ and D$, and without the
      inclusion policy leaves them untouched. */
  lemma L2StepClearsL1(cfg: Config, h: HState, addr: nat, side: Side)
    requires ValidConfig(cfg) && Shapes(cfg, h)
    ensures OnlyClears(L1State(h, side), L1State(L2Step(cfg, h, addr).0, side))
    ensures !cfg.inclusive ==> L1State(L2Step(cfg, h, addr).0, side) == L1State(h, side)
  {
    if cfg.l2.numSets > 0 && !L2Hits(cfg, h, addr) {
      L2StepMiss(cfg, h, addr);
      L2MissClearsL1(cfg, h.(l2 := h.l2.(refs := h.l2.refs + 1)), addr, side);
    }
  }

  /** The L2 part of an access and its latency depend only on the L2 state. */
  lemma L2StepReadsOnlyL2(cfg: Config, h: HState, h': HState, addr: nat)
    requires ValidConfig(cfg) && Shapes(cfg, h) && Shapes(cfg, h') && h.l2 == h'.l2
    ensures L2Step(cfg, h, addr).1 == L2Step(cfg, h', addr).1
    ensures L2Step(cfg, h, addr).0.l2 == L2Step(cfg, h', addr).0.l2
  {
    if cfg.l2.numSets > 0 {
      if !LookupStep(cfg.l2, h.l2.(refs := h.l2.refs + 1), addr).0 {
        L2HitBranch(cfg, h, addr);
        L2HitBranch(cfg, h', addr);
      } else {
        L2MissBranch(cfg, h, addr);
        L2MissBranch(cfg, h', addr);
        L2MissReadsOnlyL2(cfg, h.(l2 := h.l2.(refs := h.l2.refs + 1)), h'.(l2 := h'.l2.(refs := h'.l2.refs + 1)), addr);
      }
    }
  }

  lemma L2MissReadsOnlyL2(cfg: Config, h: HState, h': HState, addr: nat)
    requires ValidConfig(cfg) && Shapes(cfg, h) && Shapes(cfg, h') && cfg.l2.numSets > 0 && h.l2 == h'.l2
    ensures L2Miss(cfg, h, addr).1 == L2Miss(cfg, h', addr).1
    ensures L2Miss(cfg, h, addr).0.l2 == L2Miss(cfg, h', addr).0.l2
  {
  }

  /** The latency of an L2 access is memspeed, the L2 hit time, or their sum. */
  lemma L2Latency(cfg: Config, h: HState, addr: nat)
    requires ValidConfig(cfg) && Shapes(cfg, h)
    ensures var t := L2Step(cfg, h, addr).1;
            (cfg.l2.numSets == 0 ==> t == cfg.memspeed) &&
            (cfg.l2.numSets > 0 ==> t == cfg.l2.hitTime || t == cfg.l2.hitTime + cfg.memspeed)
  {
  }

  // ---------------------------------------------------------------------------
  // icache_access / dcache_access: statistics and latency
  // ---------------------------------------------------------------------------

  /** The first-level set an address selects. */
  function L1Set(cfg: Config, h: HState, side: Side, addr: nat): seq<Line>
    requires ValidConfig(cfg) && Shapes(cfg, h) && L1Config(cfg, side).numSets > 0
  {
    L1State(h, side).contents[IndexOf(addr, L1Config(cfg, side).w)]
  }

  predicate L1Hits(cfg: Config, h: HState, side: Side, addr: nat)
    requires ValidConfig(cfg) && Shapes(cfg, h) && L1Config(cfg, side).numSets > 0
  {
    FindHit(L1Set(cfg, h, side, addr), TagOf(addr, L1Config(cfg, side).w)).Some?
  }

  /** The first-level state with this access's reference counted. */
  function Counted(h: HState, side: Side): HState
  {
    WithL1(h, side, L1State(h, side).(refs := L1State(h, side).refs + 1))
  }

  /** An absent first-level cache passes the access to L2 and keeps its own state. */
  lemma L1AccessBypass(cfg: Config, h: HState, side: Side, addr: nat)
    requires ValidConfig(cfg) && Shapes(cfg, h) && L1Config(cfg, side).numSets == 0
    ensures L1Step(cfg, h, side, addr) == L2Step(cfg, h, addr)
    ensures L1State(L1Step(cfg, h, side, addr).0, side) == L1State(h, side)
  {
    L2StepClearsL1(cfg, h, addr, side);
    var a, b := L1State(h, side), L1State(L2Step(cfg, h, addr).0, side);
    assert |a.contents| == 0;
    assert b.contents == a.contents;
  }

  /** The lookup of a first-level access reports a hit exactly when the
      address's set holds its tag. */
  lemma L1HitsLookup(cfg: Config, h: HState, side: Side, addr: nat)
    requires ValidConfig(cfg) && Shapes(cfg, h) && L1Config(cfg, side).numSets > 0
    ensures var ls := L1State(h, side).(refs := L1State(h, side).refs + 1);
            L1Hits(cfg, h, side, addr) <==> !LookupStep(L1Config(cfg, side), ls, addr).0
  {
    var ls := L1State(h, side).(refs := L1State(h, side).refs + 1);
    assert ls.contents == L1State(h, side).contents;
  }

  /** A hit takes the hit branch: the level as the lookup leaves it, at its hit time. */
  lemma L1StepHit(cfg: Config, h: HState, side: Side, addr: nat)
    requires ValidConfig(cfg) && Shapes(cfg, h) && L1Config(cfg, side).numSets > 0
    requires L1Hits(cfg, h, side, addr)
    ensures var ls := L1State(h, side).(refs := L1State(h, side).refs + 1);
            var look := LookupStep(L1Config(cfg, side), ls, addr);
            !look.0 && L1Step(cfg, h, side, addr).0 == WithL1(h, side, look.1) &&
            L1Step(cfg, h, side, addr).1 == L1Config(cfg, side).hitTime
  {
    L1HitsLookup(cfg, h, side, addr);
    L1HitBranch(cfg, h, side, addr);
  }

  lemma L1HitBranch(cfg: Config, h: HState, side: Side, addr: nat)
    requires ValidConfig(cfg) && Shapes(cfg, h) && L1Config(cfg, side).numSets > 0
    requires !LookupStep(L1Config(cfg, side), L1State(h, side).(refs := L1State(h, side).refs + 1), addr).0
    ensures var look := LookupStep(L1Config(cfg, side), L1State(h, side).(refs := L1State(h, side).refs + 1), addr);
            L1Step(cfg, h, side, addr).0 == WithL1(h, side, look.1) &&
            L1Step(cfg, h, side, addr).1 == L1Config(cfg, side).hitTime
  {
  }

  lemma L1MissBranch(cfg: Config, h: HState, side: Side, addr: nat)
    requires ValidConfig(cfg) && Shapes(cfg, h) && L1Config(cfg, side).numSets > 0
    requires LookupStep(L1Config(cfg, side), L1State(h, side).(refs := L1State(h, side).refs + 1), addr).0
    ensures L1Step(cfg, h, side, addr) == L1Miss(cfg, Counted(h, side), side, addr)
  {
  }

  /** A first-level hit counts a reference, costs the level's hit time and
      touches nothing but that level. */
  lemma L1AccessHit(cfg: Config, h: HState, side: Side, addr: nat)
    requires ValidConfig(cfg) && Shapes(cfg, h) && L1Config(cfg, side).numSets > 0
    requires L1Hits(cfg, h, side, addr)
    ensures var r := L1Step(cfg, h, side, addr);
            var a, b := L1State(h, side), L1State(r.0, side);
            r.1 == L1Config(cfg, side).hitTime &&
            b.refs == a.refs + 1 && b.misses == a.misses && b.penalties == a.penalties &&
            r.0.l2 == h.l2 && WithL1(r.0, side, a) == h
  {
  }

  /** A miss goes down the miss path with the reference already counted. */
  lemma L1StepMiss(cfg: Config, h: HState, side: Side, addr: nat)
    requires ValidConfig(cfg) && Shapes(cfg, h) && L1Config(cfg, side).numSets > 0
    requires !L1Hits(cfg, h, side, addr)
    ensures L1Step(cfg, h, side, addr) == L1Miss(cfg, Counted(h, side), side, addr)
  {
  }

  /** The fill at the end of a first-level miss changes only that level:
      its lines as FillStep leaves them, its penalties raised by the latency. */
  lemma L1FillEffect(cfg: Config, h: HState, side: Side, addr: nat, latency: nat)
    requires ValidConfig(cfg) && Shapes(cfg, h) && L1Config(cfg, side).numSets > 0
    ensures var f := FillStep(L1Config(cfg, side), L1State(h, side), addr);
            var r := L1Fill(cfg, h, side, addr, latency);
            L1State(r, side) == f.state.(penalties := f.state.penalties + latency) &&
            WithL1(r, side, L1State(h, side)) == h
  {
  }

  /** The first-level miss path in terms of its two halves: the L2 access
      from the hierarchy with the miss counted, then the fill. */
  lemma L1MissSteps(cfg: Config, h: HState, side: Side, addr: nat, h1: HState, h2: HState, t: nat)
    requires ValidConfig(cfg) && Shapes(cfg, h) && L1Config(cfg, side).numSets > 0
    requires h1 == MissCounted(h, side) && (h2, t) == L2Step(cfg, h1, addr)
    ensures L1Miss(cfg, h, side, addr).0 == L1Fill(cfg, h2, side, addr, t)
    ensures L1Miss(cfg, h, side, addr).1 == L1Config(cfg, side).hitTime + t
  {
  }

  /** The first-level miss path counts a miss, adds the L2 latency to the
      level's penalties, costs hit time plus that latency, and leaves the L2
      as the L2 access alone would. */
  lemma L1MissEffect(cfg: Config, h: HState, side: Side, addr: nat)
    requires ValidConfig(cfg) && Shapes(cfg, h) && L1Config(cfg, side).numSets > 0
    ensures var r := L1Miss(cfg, h, side, addr);
            var l2 := L2Step(cfg, h, addr);
            var a, b := L1State(h, side), L1State(r.0, side);
            r.1 == L1Config(cfg, side).hitTime + l2.1 &&
            b.refs == a.refs && b.misses == a.misses + 1 && b.penalties == a.penalties + l2.1 &&
            r.0.l2 == l2.0.l2
  {
    var h1 := MissCounted(h, side);
    L2StepReadsOnlyL2(cfg, h, h1, addr);
    L2StepClearsL1(cfg, h1, addr, side);
    var l2r := L2Step(cfg, h1, addr);
    L1FillEffect(cfg, l2r.0, side, addr, l2r.1);
  }

  /** A first-level miss counts a reference and a miss, goes to L2, adds the
      L2 latency to the level's penalties, costs hit time plus that latency,
      and leaves the L2 as the L2 access alone would. */
  lemma L1AccessMiss(cfg: Config, h: HState, side: Side, addr: nat)
    requires ValidConfig(cfg) && Shapes(cfg, h) && L1Config(cfg, side).numSets > 0
    requires !L1Hits(cfg, h, side, addr)
    ensures var r := L1Step(cfg, h, side, addr);
            var l2 := L2Step(cfg, h, addr);
            var a, b := L1State(h, side), L1State(r.0, side);
            r.1 == L1Config(cfg, side).hitTime + l2.1 &&
            b.refs == a.refs + 1 && b.misses == a.misses + 1 && b.penalties == a.penalties + l2.1 &&
            r.0.l2 == l2.0.l2
  {
    L1StepMiss(cfg, h, side, addr);
    L1MissEffect(cfg, Counted(h, side), side, addr);
    L2StepReadsOnlyL2(cfg, h, Counted(h, side), addr);
  }

  // ---------------------------------------------------------------------------
  // Invariants preserved by every access
  // ---------------------------------------------------------------------------

  lemma L2MissKeepsInv(cfg: Config, h: HState, addr: nat)
    requires Inv(cfg, h) && cfg.l2.numSets > 0 && addr < WORD
    ensures Inv(cfg, L2Miss(cfg, h, addr).0)
  {
    var r := L2Miss(cfg, h, addr).0;
    L2MissClearsL1(cfg, h, addr, ICache);
    L2MissClearsL1(cfg, h, addr, DCache);
    OnlyClearsKeepsInv(cfg.icache, h.icache, r.icache);
    OnlyClearsKeepsInv(cfg.dcache, h.dcache, r.dcache);
    var l2m := h.l2.(misses := h.l2.misses + 1, penalties := h.l2.penalties + cfg.memspeed);
    FillKeepsBounded(cfg.l2, l2m, addr);
  }

  /** Every L2 access keeps the shape and bounds invariant. */
  lemma L2StepKeepsInv(cfg: Config, h: HState, addr: nat)
    requires Inv(cfg, h) && addr < WORD
    ensures Inv(cfg, L2Step(cfg, h, addr).0)
  {
    if cfg.l2.numSets > 0 {
      var h1 := h.(l2 := h.l2.(refs := h.l2.refs + 1));
      assert Inv(cfg, h1);
      if L2Hits(cfg, h, addr) {
        LookupKeepsBounded(cfg.l2, h1.l2, addr);
      } else {
        L2StepMiss(cfg, h, addr);
        L2MissKeepsInv(cfg, h1, addr);
      }
    }
  }

  lemma L1FillKeepsInv(cfg: Config, h: HState, side: Side, addr: nat, latency: nat)
    requires Inv(cfg, h) && L1Config(cfg, side).numSets > 0 && addr < WORD
    ensures Inv(cfg, L1Fill(cfg, h, side, addr, latency))
  {
    var lc := L1Config(cfg, side);
    var f := FillStep(lc, L1State(h, side), addr);
    FillKeepsBounded(lc, L1State(h, side), addr);
    WithL1Inv(cfg, h, side, f.state.(penalties := f.state.penalties + latency));
  }

  lemma L1MissKeepsInv(cfg: Config, h: HState, side: Side, addr: nat)
    requires Inv(cfg, h) && L1Config(cfg, side).numSets > 0 && addr < WORD
    ensures Inv(cfg, L1Miss(cfg, h, side, addr).0)
  {
    var h1 := MissCounted(h, side);
    WithL1Inv(cfg, h, side, L1State(h1, side));
    L2StepKeepsInv(cfg, h1, addr);
    var l2r := L2Step(cfg, h1, addr);
    L1FillKeepsInv(cfg, l2r.0, side, addr, l2r.1);
  }

  /** Every first-level access keeps the shape and bounds invariant. */
  lemma L1StepKeepsInv(cfg: Config, h: HState, side: Side, addr: nat)
    requires Inv(cfg, h) && addr < WORD
    ensures Inv(cfg, L1Step(cfg, h, side, addr).0)
  {
    var lc := L1Config(cfg, side);
    if lc.numSets == 0 {
      L2StepKeepsInv(cfg, h, addr);
    } else {
      var ls := L1State(h, side).(refs := L1State(h, side).refs + 1);
      WithL1Inv(cfg, h, side, ls);
      if L1Hits(cfg, h, side, addr) {
        L1StepHit(cfg, h, side, addr);
        LookupKeepsBounded(lc, ls, addr);
        WithL1Inv(cfg, h, side, LookupStep(lc, ls, addr).1);
      } else {
        L1StepMiss(cfg, h, side, addr);
        L1MissKeepsInv(cfg, Counted(h, side), side, addr);
      }
    }
  }

  lemma L2MissKeepsNoDup(cfg: Config, h: HState, addr: nat)
    requires ValidConfig(cfg) && Shapes(cfg, h) && cfg.l2.numSets > 0 && AllNoDup(h)
    requires !L2Hits(cfg, h, addr)
    ensures AllNoDup(L2Miss(cfg, h, addr).0)
  {
    var r := L2Miss(cfg, h, addr).0;
    L2MissClearsL1(cfg, h, addr, ICache);
    L2MissClearsL1(cfg, h, addr, DCache);
    OnlyClearsKeepsNoDup(h.icache, r.icache);
    OnlyClearsKeepsNoDup(h.dcache, r.dcache);
    var l2m := h.l2.(misses := h.l2.misses + 1, penalties := h.l2.penalties + cfg.memspeed);
    FillKeepsNoDup(cfg.l2, l2m, addr);
  }

  /** Every L2 access keeps tags unique within each set of every level. */
  lemma L2StepKeepsNoDup(cfg: Config, h: HState, addr: nat)
    requires ValidConfig(cfg) && Shapes(cfg, h) && AllNoDup(h)
    ensures AllNoDup(L2Step(cfg, h, addr).0)
  {
    if cfg.l2.numSets > 0 {
      var h1 := h.(l2 := h.l2.(refs := h.l2.refs + 1));
      if L2Hits(cfg, h, addr) {
        LookupKeepsNoDup(cfg.l2, h1.l2, addr);
      } else {
        L2StepMiss(cfg, h, addr);
        L2MissKeepsNoDup(cfg, h1, addr);
      }
    }
  }

  lemma L1FillKeepsNoDup(cfg: Config, h: HState, side: Side, addr: nat, latency: nat)
    requires ValidConfig(cfg) && Shapes(cfg, h) && L1Config(cfg, side).numSets > 0 && AllNoDup(h)
    requires !L1Hits(cfg, h, side, addr)
    ensures AllNoDup(L1Fill(cfg, h, side, addr, latency))
  {
    FillKeepsNoDup(L1Config(cfg, side), L1State(h, side), addr);
  }

  lemma L1MissKeepsNoDup(cfg: Config, h: HState, side: Side, addr: nat)
    requires ValidConfig(cfg) && Shapes(cfg, h) && L1Config(cfg, side).numSets > 0 && AllNoDup(h)
    requires !L1Hits(cfg, h, side, addr)
    ensures AllNoDup(L1Miss(cfg, h, side, addr).0)
  {
    var lc := L1Config(cfg, side);
    var h1 := MissCounted(h, side);
    L2StepKeepsNoDup(cfg, h1, addr);
    var l2r := L2Step(cfg, h1, addr);
    L2StepClearsL1(cfg, h1, addr, side);
    OnlyClearsKeepsMiss(L1State(h1, side), L1State(l2r.0, side), IndexOf(addr, lc.w), TagOf(addr, lc.w));
    L1FillKeepsNoDup(cfg, l2r.0, side, addr, l2r.1);
  }

  /** Every first-level access keeps tags unique within each set of every level. */
  lemma L1StepKeepsNoDup(cfg: Config, h: HState, side: Side, addr: nat)
    requires ValidConfig(cfg) && Shapes(cfg, h) && AllNoDup(h)
    ensures AllNoDup(L1Step(cfg, h, side, addr).0)
  {
    var lc := L1Config(cfg, side);
    if lc.numSets == 0 {
      L2StepKeepsNoDup(cfg, h, addr);
    } else {
      var ls := L1State(h, side).(refs := L1State(h, side).refs + 1);
      if L1Hits(cfg, h, side, addr) {
        LookupKeepsNoDup(lc, ls, addr);
      } else {
        L1StepMiss(cfg, h, side, addr);
        L1MissKeepsNoDup(cfg, Counted(h, side), side, addr);
      }
    }
  }

  // ---------------------------------------------------------------------------
  // An access leaves its block cached
  // ---------------------------------------------------------------------------

  /** After an access to a present L2 the L2 holds the address's block. */
  lemma L2StepHoldsAddress(cfg: Config, h: HState, addr: nat)
    requires ValidConfig(cfg) && Shapes(cfg, h) && cfg.l2.numSets > 0
    ensures HoldsBlock(cfg.l2, L2Step(cfg, h, addr).0.l2, BlockOf(addr, cfg.l2.w))
  {
    if L2Hits(cfg, h, addr) {
      L2StepHit(cfg, h, addr);
      LookupHoldsAddress(cfg.l2, h.l2.(refs := h.l2.refs + 1), addr);
    } else {
      L2AccessMiss(cfg, h, addr);
    }
  }

  lemma L1MissHoldsAddress(cfg: Config, h: HState, side: Side, addr: nat)
    requires ValidConfig(cfg) && Shapes(cfg, h) && L1Config(cfg, side).numSets > 0
    ensures HoldsBlock(L1Config(cfg, side), L1State(L1Miss(cfg, h, side, addr).0, side),
                       BlockOf(addr, L1Config(cfg, side).w))
  {
    var l2r := L2Step(cfg, MissCounted(h, side), addr);
    L1FillEffect(cfg, l2r.0, side, addr, l2r.1);
    FillHoldsAddress(L1Config(cfg, side), L1State(l2r.0, side), addr);
  }

  /** After an access through a present I$ or D$ that cache holds the
      address's block (a hit keeps it, a miss fills it). */
  lemma L1StepHoldsAddress(cfg: Config, h: HState, side: Side, addr: nat)
    requires ValidConfig(cfg) && Shapes(cfg, h) && L1Config(cfg, side).numSets > 0
    ensures HoldsBlock(L1Config(cfg, side), L1State(L1Step(cfg, h, side, addr).0, side),
                       BlockOf(addr, L1Config(cfg, side).w))
  {
    var lc := L1Config(cfg, side);
    if L1Hits(cfg, h, side, addr) {
      L1StepHit(cfg, h, side, addr);
      LookupHoldsAddress(lc, L1State(h, side).(refs := L1State(h, side).refs + 1), addr);
    } else {
      L1StepMiss(cfg, h, side, addr);
      L1MissHoldsAddress(cfg, Counted(h, side), side, addr);
    }
  }

  // ---------------------------------------------------------------------------
  // Inclusion
  // ---------------------------------------------------------------------------

  lemma L2HitKeepsIncluded(cfg: Config, h: HState, addr: nat, side: Side)
    requires ValidConfig(cfg) && Shapes(cfg, h) && cfg.l2.numSets > 0 && L2Hits(cfg, h, addr)
    requires IncludedIn(L1Config(cfg, side), L1State(h, side), cfg.l2, h.l2)
    ensures IncludedIn(L1Config(cfg, side), L1State(L2Step(cfg, h, addr).0, side),
                       cfg.l2, L2Step(cfg, h, addr).0.l2)
  {
    L2AccessHit(cfg, h, addr);
  }

  lemma L2MissKeepsIncluded(cfg: Config, h: HState, addr: nat, side: Side)
    requires Inv(cfg, h) && cfg.inclusive && cfg.l2.numSets > 0
    requires IncludedIn(L1Config(cfg, side), L1State(h, side), cfg.l2, h.l2)
    ensures IncludedIn(L1Config(cfg, side), L1State(L2Miss(cfg, h, addr).0, side),
                       cfg.l2, L2Miss(cfg, h, addr).0.l2)
  {
    var lc := L1Config(cfg, side);
    var a := L1State(h, side);
    var r := L2Miss(cfg, h, addr).0;
    var b := L1State(r, side);
    var l2m := h.l2.(misses := h.l2.misses + 1, penalties := h.l2.penalties + cfg.memspeed);
    var f := FillStep(cfg.l2, l2m, addr);
    var idx2 := IndexOf(addr, cfg.l2.w);
    FillStepEffect(cfg.l2, l2m, addr);
    if f.evict >= 0 {
      InvalidateExactlyVictim(lc, a, cfg.l2, f.victimTag, idx2);
    }
    forall s, k | 0 <= s < |b.contents| && 0 <= k < |b.contents[s]| && b.contents[s][k].isValid
      ensures HoldsBlock(cfg.l2, r.l2, BlockNum(lc, b.contents[s][k].tag, s))
    {
      assert a.contents[s][k].isValid && a.contents[s][k].tag == b.contents[s][k].tag;
      FillKeepsHolds(cfg.l2, l2m, addr, BlockNum(lc, b.contents[s][k].tag, s));
    }
  }

  /** Under the inclusion policy an L2 access keeps a first-level cache
      included in L2: a block L2 drops is invalidated above it. */
  lemma L2StepKeepsIncluded(cfg: Config, h: HState, addr: nat, side: Side)
    requires Inv(cfg, h) && cfg.inclusive && cfg.l2.numSets > 0
    requires IncludedIn(L1Config(cfg, side), L1State(h, side), cfg.l2, h.l2)
    ensures IncludedIn(L1Config(cfg, side), L1State(L2Step(cfg, h, addr).0, side),
                       cfg.l2, L2Step(cfg, h, addr).0.l2)
  {
    if L2Hits(cfg, h, addr) {
      L2HitKeepsIncluded(cfg, h, addr, side);
    } else {
      L2StepMiss(cfg, h, addr);
      L2MissKeepsIncluded(cfg, h.(l2 := h.l2.(refs := h.l2.refs + 1)), addr, side);
    }
  }

  lemma L2StepKeepsInclusive(cfg: Config, h: HState, addr: nat)
    requires Inv(cfg, h) && cfg.inclusive && cfg.l2.numSets > 0 && Inclusive(cfg, h)
    ensures Inclusive(cfg, L2Step(cfg, h, addr).0)
  {
    L2StepKeepsIncluded(cfg, h, addr, ICache);
    L2StepKeepsIncluded(cfg, h, addr, DCache);
  }

  lemma L1HitKeepsInclusive(cfg: Config, h: HState, side: Side, addr: nat)
    requires ValidConfig(cfg) && Shapes(cfg, h) && L1Config(cfg, side).numSets > 0
    requires L1Hits(cfg, h, side, addr) && Inclusive(cfg, h)
    ensures Inclusive(cfg, L1Step(cfg, h, side, addr).0)
  {
    var lc := L1Config(cfg, side);
    var ls := L1State(h, side).(refs := L1State(h, side).refs + 1);
    L1StepHit(cfg, h, side, addr);
    var after := LookupStep(lc, ls, addr).1;
    LookupRetains(lc, L1State(h, side), ls, addr);
    RetainsKeepsIncluded(lc, L1State(h, side), after, cfg.l2, h.l2);
    InclusiveWithL1(cfg, h, side, after);
  }

  /** A lookup keeps every valid line where it was, with its tag. */
  lemma LookupRetains(lc: LevelConfig, a: LevelState, ls: LevelState, addr: nat)
    requires ValidLevel(lc) && Shaped(lc, ls) && lc.numSets > 0 && ls.contents == a.contents
    ensures Retains(a, LookupStep(lc, ls, addr).1)
  {
    LookupStepEffect(lc, ls, addr);
  }

  /** Replacing a first-level state by one that is included in L2 keeps inclusion. */
  lemma InclusiveWithL1(cfg: Config, h: HState, side: Side, ls: LevelState)
    requires Inclusive(cfg, h) && IncludedIn(L1Config(cfg, side), ls, cfg.l2, h.l2)
    ensures Inclusive(cfg, WithL1(h, side, ls))
  {
  }

  lemma L1FillKeepsInclusive(cfg: Config, h: HState, side: Side, addr: nat, latency: nat)
    requires ValidConfig(cfg) && Shapes(cfg, h) && cfg.l2.numSets > 0 && L1Config(cfg, side).numSets > 0
    requires Inclusive(cfg, h) && HoldsBlock(cfg.l2, h.l2, BlockOf(addr, cfg.l2.w))
    ensures Inclusive(cfg, L1Fill(cfg, h, side, addr, latency))
  {
    var lc := L1Config(cfg, side);
    var before := L1State(h, side);
    var f := FillStep(lc, before, addr);
    var after := f.state.(penalties := f.state.penalties + latency);
    FillStepLines(lc, before, addr);
    AddressBlock(lc, addr);
    forall s, k | 0 <= s < |after.contents| && 0 <= k < |after.contents[s]| && after.contents[s][k].isValid
      ensures HoldsBlock(cfg.l2, h.l2, BlockNum(lc, after.contents[s][k].tag, s))
    {
      if after.contents[s][k] != before.contents[s][k] {
        assert BlockNum(lc, after.contents[s][k].tag, s) == BlockOf(addr, cfg.l2.w);
      }
    }
    assert IncludedIn(lc, after, cfg.l2, h.l2);
    L1FillEffect(cfg, h, side, addr, latency);
  }

  lemma L1MissKeepsInclusive(cfg: Config, h: HState, side: Side, addr: nat)
    requires Inv(cfg, h) && cfg.inclusive && cfg.l2.numSets > 0 && L1Config(cfg, side).numSets > 0
    requires Inclusive(cfg, h)
    ensures Inclusive(cfg, L1Miss(cfg, h, side, addr).0)
  {
    var h1 := MissCounted(h, side);
    WithL1Inv(cfg, h, side, L1State(h1, side));
    L2StepKeepsInclusive(cfg, h1, addr);
    L2StepHoldsAddress(cfg, h1, addr);
    var l2r := L2Step(cfg, h1, addr);
    L1FillKeepsInclusive(cfg, l2r.0, side, addr, l2r.1);
  }

  /** Under the inclusion policy every first-level access keeps I$ and D$
      included in L2. */
  lemma L1StepKeepsInclusive(cfg: Config, h: HState, side: Side, addr: nat)
    requires Inv(cfg, h) && cfg.inclusive && cfg.l2.numSets > 0 && Inclusive(cfg, h)
    ensures Inclusive(cfg, L1Step(cfg, h, side, addr).0)
  {
    var lc := L1Config(cfg, side);
    if lc.numSets == 0 {
      L2StepKeepsInclusive(cfg, h, addr);
    } else if L1Hits(cfg, h, side, addr) {
      L1HitKeepsInclusive(cfg, h, side, addr);
    } else {
      L1StepMiss(cfg, h, side, addr);
      var ls := L1State(h, side).(refs := L1State(h, side).refs + 1);
      WithL1Inv(cfg, h, side, ls);
      L1MissKeepsInclusive(cfg, Counted(h, side), side, addr);
    }
  }
}
