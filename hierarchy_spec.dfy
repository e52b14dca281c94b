/** The whole I$ / D$ / L2 hierarchy as a value, and the access pipeline as
    functions from a hierarchy state to the next state and the access
    latency. The imperative simulator is proved to follow these functions;
    the invariants of the cache are proved about them. */
module HierarchySpec {
  import opened Pow2Arith
  import opened Geometry
  import opened Address
  import opened LineSet

  /** Configuration of one level: set count (0 = absent), lines per set,
      hit time and the resolved field widths. */
  datatype LevelConfig = LevelConfig(numSets: nat, assoc: nat, hitTime: nat, w: Widths)

  /** State of one level: the lines of every set and the three statistics;
      refs is also the level's logical clock. */
  datatype LevelState = LevelState(contents: seq<seq<Line>>, refs: nat, misses: nat, penalties: nat)

  datatype Config = Config(icache: LevelConfig, dcache: LevelConfig, l2: LevelConfig,
                           memspeed: nat, inclusive: bool)

  datatype HState = HState(icache: LevelState, dcache: LevelState, l2: LevelState)

  /** Which first-level cache an access goes to (the source's IorD selector). */
  datatype Side = ICache | DCache

  /** Widths cover the address; a present level has 2^indexWidth sets and
      at least one line per set. */
  predicate ValidLevel(lc: LevelConfig)
  {
    Covers(lc.w) && (lc.numSets > 0 ==> Pow2(lc.w.index) == lc.numSets && lc.assoc >= 1)
  }

  /** All levels valid and sharing one block size (offset width). */
  predicate ValidConfig(cfg: Config)
  {
    ValidLevel(cfg.icache) && ValidLevel(cfg.dcache) && ValidLevel(cfg.l2) &&
    cfg.icache.w.offset == cfg.l2.w.offset && cfg.dcache.w.offset == cfg.l2.w.offset
  }

  /** The configuration init_cache derives for one level. */
  function LevelConfigOf(blockSize: nat, numSets: nat, assoc: nat, hitTime: nat): (lc: LevelConfig)
    requires ValidGeometry(blockSize, numSets, assoc)
    ensures ValidLevel(lc)
    ensures Pow2(lc.w.offset) == blockSize
  {
    LevelConfig(numSets, assoc, hitTime, ResolveWidths(blockSize, numSets))
  }

  function L1Config(cfg: Config, side: Side): LevelConfig
  {
    if side == ICache then cfg.icache else cfg.dcache
  }

  function L1State(h: HState, side: Side): LevelState
  {
    if side == ICache then h.icache else h.dcache
  }

  function WithL1(h: HState, side: Side, ls: LevelState): HState
  {
    if side == ICache then h.(icache := ls) else h.(dcache := ls)
  }

  /** The state has numSets sets of assoc lines each. */
  predicate Shaped(lc: LevelConfig, ls: LevelState)
  {
    |ls.contents| == lc.numSets &&
    forall s :: 0 <= s < |ls.contents| ==> |ls.contents[s]| == lc.assoc
  }

  predicate Shapes(cfg: Config, h: HState)
  {
    Shaped(cfg.icache, h.icache) && Shaped(cfg.dcache, h.dcache) && Shaped(cfg.l2, h.l2)
  }

  /** Every time stamp is at most the level's clock and every tag fits the tag width. */
  predicate Bounded(lc: LevelConfig, ls: LevelState)
  {
    forall s, k :: 0 <= s < |ls.contents| && 0 <= k < |ls.contents[s]| ==>
      ls.contents[s][k].timeStamp <= ls.refs && ls.contents[s][k].tag < Pow2(lc.w.tag)
  }

  predicate LevelInv(lc: LevelConfig, ls: LevelState)
  {
    Shaped(lc, ls) && Bounded(lc, ls)
  }

  /** The well-formedness invariant of a reachable hierarchy state. */
  predicate Inv(cfg: Config, h: HState)
  {
    ValidConfig(cfg) &&
    LevelInv(cfg.icache, h.icache) && LevelInv(cfg.dcache, h.dcache) && LevelInv(cfg.l2, h.l2)
  }

  /** A level as init_cache leaves it: every line invalid with tag and time
      stamp 0, every statistic 0. */
  function InitLevel(lc: LevelConfig): (ls: LevelState)
    ensures Shaped(lc, ls)
    ensures ls.refs == 0 && ls.misses == 0 && ls.penalties == 0
    ensures forall s, k :: 0 <= s < |ls.contents| && 0 <= k < |ls.contents[s]| ==>
      ls.contents[s][k] == Line(0, 0, false)
  {
    LevelState(seq(lc.numSets, _ => seq(lc.assoc, _ => Line(0, 0, false))), 0, 0, 0)
  }

  function InitState(cfg: Config): (h: HState)
    ensures Shapes(cfg, h)
    ensures h.icache.refs == 0 && h.dcache.refs == 0 && h.l2.refs == 0
    ensures h.icache.misses == 0 && h.dcache.misses == 0 && h.l2.misses == 0
    ensures h.icache.penalties == 0 && h.dcache.penalties == 0 && h.l2.penalties == 0
  {
    HState(InitLevel(cfg.icache), InitLevel(cfg.dcache), InitLevel(cfg.l2))
  }

  // ---------------------------------------------------------------------------
  // One level: lookup (is_miss), fill (lru_add), invalidation (lru_evict)
  // ---------------------------------------------------------------------------

  /** is_miss: whether the address misses, and the level after touching the
      hit line's time stamp with the level's clock. */
  function LookupStep(lc: LevelConfig, ls: LevelState, addr: nat): (r: (bool, LevelState))
    requires ValidLevel(lc) && Shaped(lc, ls) && lc.numSets > 0
    ensures Shaped(lc, r.1)
    ensures r.1.refs == ls.refs && r.1.misses == ls.misses && r.1.penalties == ls.penalties
  {
    var idx := IndexOf(addr, lc.w);
    var tag := TagOf(addr, lc.w);
    var s := ls.contents[idx];
    TouchEffect(s, tag, ls.refs);
    (FindHit(s, tag).None?, ls.(contents := ls.contents[idx := Touch(s, tag, ls.refs)]))
  }

  /** Result of lru_add: the new level state, the replaced slot (-1 when an
      invalid line was filled) and the replaced line's tag read before it
      was overwritten (0 when nothing was replaced). */
  datatype FillResult = FillResult(state: LevelState, evict: int, victimTag: nat)

  /** lru_add: install the address's tag with the level's clock as time stamp. */
  function FillStep(lc: LevelConfig, ls: LevelState, addr: nat): (r: FillResult)
    requires ValidLevel(lc) && Shaped(lc, ls) && lc.numSets > 0
    ensures Shaped(lc, r.state)
    ensures r.state.refs == ls.refs && r.state.misses == ls.misses && r.state.penalties == ls.penalties
    ensures -1 <= r.evict < lc.assoc
  {
    var idx := IndexOf(addr, lc.w);
    var tag := TagOf(addr, lc.w);
    var s := ls.contents[idx];
    InstallEffect(s, tag, ls.refs);
    var evict := if FirstInvalid(s).Some? then -1 else LruVictim(s);
    FillResult(ls.(contents := ls.contents[idx := Install(s, tag, ls.refs)]),
               evict, if evict >= 0 then s[evict].tag else 0)
  }

  /** One level's part of lru_evict: split the rebuilt block address with the
      level's geometry and invalidate that tag in that set; an absent level
      is skipped. */
  function InvalidateBlock(lc: LevelConfig, ls: LevelState, ea: nat): (r: LevelState)
    requires ValidLevel(lc) && Shaped(lc, ls)
    ensures Shaped(lc, r)
    ensures r.refs == ls.refs && r.misses == ls.misses && r.penalties == ls.penalties
  {
    if lc.numSets == 0 then ls
    else
      InclusionSplitAgrees(ea, lc.w);
      var idx := InclusionIndex(ea, lc.w);
      InvalidatedEffect(ls.contents[idx], InclusionTag(ea, lc.w));
      ls.(contents := ls.contents[idx := Invalidated(ls.contents[idx], InclusionTag(ea, lc.w))])
  }

  /** lru_evict: rebuild the replaced L2 block's address from its old tag and
      its set index, and invalidate that block in I$ and D$. */
  function EvictStep(cfg: Config, h: HState, victimTag: nat, index: nat): (r: HState)
    requires ValidConfig(cfg) && Shapes(cfg, h)
    ensures Shapes(cfg, r)
    ensures r.l2 == h.l2
  {
    var ea := EvictAddress(victimTag, index, cfg.l2.w);
    h.(icache := InvalidateBlock(cfg.icache, h.icache, ea),
       dcache := InvalidateBlock(cfg.dcache, h.dcache, ea))
  }

  // ---------------------------------------------------------------------------
  // The access pipeline
  // ---------------------------------------------------------------------------

  /** l2cache_access: the next state and the latency of an L2 access. */
  function L2Step(cfg: Config, h: HState, addr: nat): (r: (HState, nat))
    requires ValidConfig(cfg) && Shapes(cfg, h)
    ensures Shapes(cfg, r.0)
  {
    if cfg.l2.numSets == 0 then (h, cfg.memspeed)
    else
      var l2 := h.l2.(refs := h.l2.refs + 1);
      var look := LookupStep(cfg.l2, l2, addr);
      if !look.0 then (h.(l2 := look.1), cfg.l2.hitTime)
      else L2Miss(cfg, h.(l2 := l2), addr)
  }

  /** The miss path of l2cache_access, after the reference was counted:
      count the miss and its memory penalty, fill the block, and under the
      inclusion policy invalidate the replaced block in I$ and D$. */
  function L2Miss(cfg: Config, h: HState, addr: nat): (r: (HState, nat))
    requires ValidConfig(cfg) && Shapes(cfg, h) && cfg.l2.numSets > 0
    ensures Shapes(cfg, r.0)
  {
    var l2m := h.l2.(misses := h.l2.misses + 1, penalties := h.l2.penalties + cfg.memspeed);
    var f := FillStep(cfg.l2, l2m, addr);
    var h1 := h.(l2 := f.state);
    var h2 := if cfg.inclusive && f.evict >= 0
              then EvictStep(cfg, h1, f.victimTag, IndexOf(addr, cfg.l2.w)) else h1;
    (h2, cfg.l2.hitTime + cfg.memspeed)
  }

  /** icache_access / dcache_access: the next state and the latency of a
      first-level access. */
  function L1Step(cfg: Config, h: HState, side: Side, addr: nat): (r: (HState, nat))
    requires ValidConfig(cfg) && Shapes(cfg, h)
    ensures Shapes(cfg, r.0)
  {
    var lc := L1Config(cfg, side);
    if lc.numSets == 0 then L2Step(cfg, h, addr)
    else
      var ls := L1State(h, side).(refs := L1State(h, side).refs + 1);
      var look := LookupStep(lc, ls, addr);
      if !look.0 then (WithL1(h, side, look.1), lc.hitTime)
      else L1Miss(cfg, WithL1(h, side, ls), side, addr)
  }

  /** The miss path of a first-level access, after the reference was
      counted: count the miss, access L2, fill the first-level cache itself,
      and add the L2 latency to the level's penalties. */
  function L1Miss(cfg: Config, h: HState, side: Side, addr: nat): (r: (HState, nat))
    requires ValidConfig(cfg) && Shapes(cfg, h) && L1Config(cfg, side).numSets > 0
    ensures Shapes(cfg, r.0)
  {
    var l2r := L2Step(cfg, MissCounted(h, side), addr);
    (L1Fill(cfg, l2r.0, side, addr, l2r.1), L1Config(cfg, side).hitTime + l2r.1)
  }

  /** The hierarchy with a miss counted at the first-level cache. */
  function MissCounted(h: HState, side: Side): (r: HState)
    ensures r.l2 == h.l2
  {
    WithL1(h, side, L1State(h, side).(misses := L1State(h, side).misses + 1))
  }

  /** The last part of a first-level miss: fill the first-level cache after
      the L2 access and add that access's latency to its penalties. */
  function L1Fill(cfg: Config, h: HState, side: Side, addr: nat, latency: nat): (r: HState)
    requires ValidConfig(cfg) && Shapes(cfg, h) && L1Config(cfg, side).numSets > 0
    ensures Shapes(cfg, r)
    ensures r.l2 == h.l2
  {
    var f := FillStep(L1Config(cfg, side), L1State(h, side), addr);
    WithL1(h, side, f.state.(penalties := f.state.penalties + latency))
  }
}
