/** The simulator as the source runs it: each cache level is an object whose
    sets are arrays of lines updated in place and whose statistics are
    counters, and the hierarchy object runs the access routines on its three
    levels. Every method is proved to follow the pipeline functions of
    HierarchySpec, so the properties proved there hold of the simulator. */
module Simulator {
  import opened Pow2Arith
  import opened Geometry
  import opened Address
  import opened LineSet
  import opened HierarchySpec
  import opened LevelProps
  import opened HierarchyProps

  /** One cache level (struct Cache together with its configuration and its
      three statistics counters). */
  class Level {
    const numSets: nat
    const assoc: nat
    const hitTime: nat
    const w: Widths
    /** lines[s, k] is line k of set s (setList[s].blockList[k]): every set
        has assoc lines, so the nested allocation is a rectangle. */
    const lines: array2<Line>
    /** The lines of every set as the specification sees them. */
    ghost var contents: seq<seq<Line>>
    var refs: nat
    var misses: nat
    var penalties: nat

    ghost function Config(): LevelConfig
    {
      LevelConfig(numSets, assoc, hitTime, w)
    }

    /** The level as a value of the specification. */
    ghost function State(): LevelState
      reads this
    {
      LevelState(contents, refs, misses, penalties)
    }

    /** numSets sets of assoc lines each, the level invariant of the
        specification, and the array holding exactly the contents. */
    ghost predicate Valid()
      reads this, lines
    {
      lines.Length0 == numSets && lines.Length1 == assoc &&
      ValidLevel(Config()) && LevelInv(Config(), State()) &&
      forall s, k :: 0 <= s < numSets && 0 <= k < assoc ==> lines[s, k] == contents[s][k]
    }

    /** The part of init_cache for one level: zero statistics, and every line
        of every set invalid with tag and time stamp 0. */
    constructor (numSets: nat, assoc: nat, hitTime: nat, w: Widths)
      requires ValidLevel(LevelConfig(numSets, assoc, hitTime, w))
      ensures Valid() && fresh(lines)
      ensures Config() == LevelConfig(numSets, assoc, hitTime, w)
      ensures State() == InitLevel(Config())
    {
      var a := new Line[numSets, assoc];
      for s := 0 to numSets
        invariant forall i, k :: 0 <= i < s && 0 <= k < assoc ==> a[i, k] == Line(0, 0, false)
      {
        for b := 0 to assoc
          invariant forall i, k :: 0 <= i < s && 0 <= k < assoc ==> a[i, k] == Line(0, 0, false)
          invariant forall k :: 0 <= k < b ==> a[s, k] == Line(0, 0, false)
        {
          a[s, b] := Line(0, 0, false);
        }
      }
      this.numSets := numSets;
      this.assoc := assoc;
      this.hitTime := hitTime;
      this.w := w;
      lines := a;
      contents := InitLevel(LevelConfig(numSets, assoc, hitTime, w)).contents;
      refs, misses, penalties := 0, 0, 0;
    }

    /** Count one reference (refs++). */
    method CountReference()
      requires Valid()
      modifies this
      ensures Valid()
      ensures State() == old(State()).(refs := old(refs) + 1)
    {
      refs := refs + 1;
    }

    /** Count one miss (misses++). */
    method CountMiss()
      requires Valid()
      modifies this
      ensures Valid()
      ensures State() == old(State()).(misses := old(misses) + 1)
    {
      misses := misses + 1;
    }

    /** Add a miss penalty (penalties += penalty). */
    method AddPenalty(penalty: nat)
      requires Valid()
      modifies this
      ensures Valid()
      ensures State() == old(State()).(penalties := old(penalties) + penalty)
    {
      penalties := penalties + penalty;
    }

    /** The scan of is_miss over set index, whose lines are row: the first
        line that is valid and carries tag, or -1 when there is none. */
    method FindLine(index: nat, tag: nat, ghost row: seq<Line>) returns (hit: int)
      requires index < lines.Length0 && |row| == lines.Length1
      requires forall k :: 0 <= k < lines.Length1 ==> lines[index, k] == row[k]
      ensures -1 <= hit < |row|
      ensures hit == -1 <==> FindHit(row, tag).None?
      ensures hit >= 0 ==> FindHit(row, tag) == Some(hit)
    {
      for k := 0 to lines.Length1
        invariant forall j :: 0 <= j < k ==> !Holds(row[j], tag)
      {
        if lines[index, k].isValid && lines[index, k].tag == tag {
          assert Holds(row[k], tag);
          return k;
        }
      }
      return -1;
    }

    /** is_miss for this level: whether no valid line of the address's set
        carries its tag; on a hit that line's time stamp becomes the level's
        reference count. */
    method IsMiss(addr: nat) returns (miss: bool)
      requires Valid() && numSets > 0
      modifies this, lines
      ensures Valid()
      ensures (miss, State()) == LookupStep(Config(), old(State()), addr)
    {
      var index := IndexOf(addr, w);
      var tag := TagOf(addr, w);
      var hit := FindLine(index, tag, contents[index]);
      if hit >= 0 {
        // a hit: the line becomes the most recently used one
        LookupStepAt(Config(), State(), addr, hit);
        LookupKeepsBounded(Config(), State(), addr);
        lines[index, hit] := lines[index, hit].(timeStamp := refs);
        contents := contents[index := contents[index][hit := contents[index][hit].(timeStamp := refs)]];
        return false;
      }
      LookupMissKeeps(Config(), State(), addr);
      return true;
    }

    /** The scan of lru_add over set index, whose lines are row: the first
        invalid line, or -1 when every line is valid, and then the first line
        with the smallest time stamp, found by the strict comparison against
        a running minimum that starts at UINT32_MAX. */
    method FindSlot(index: nat, ghost row: seq<Line>) returns (free: int, evict: int)
      requires index < lines.Length0 && |row| == lines.Length1 > 0
      requires forall k :: 0 <= k < lines.Length1 ==> lines[index, k] == row[k]
      requires forall k :: 0 <= k < |row| ==> row[k].timeStamp < UINT32_MAX
      ensures -1 <= free < |row|
      ensures free == -1 <==> FirstInvalid(row).None?
      ensures free >= 0 ==> FirstInvalid(row) == Some(free)
      ensures free == -1 ==> evict == LruVictim(row)
    {
      var leastRecent: nat := UINT32_MAX;
      evict := -1;
      for k := 0 to lines.Length1
        invariant forall j :: 0 <= j < k ==> row[j].isValid
        invariant k == 0 ==> evict == -1 && leastRecent == UINT32_MAX
        invariant k > 0 ==> 0 <= evict < k && leastRecent == row[evict].timeStamp
        invariant k > 0 ==> forall j :: 0 <= j < k ==> row[evict].timeStamp <= row[j].timeStamp
        invariant k > 0 ==> forall j :: 0 <= j < evict ==> row[evict].timeStamp < row[j].timeStamp
      {
        if !lines[index, k].isValid {
          FirstInvalidAt(row, k);
          return k, evict;
        } else if lines[index, k].timeStamp < leastRecent {
          leastRecent := lines[index, k].timeStamp;
          evict := k;
        }
      }
      LruVictimAt(row, evict);
      free := -1;
    }

    /** lru_add for this level: fill the first invalid line of the address's
        set, or else overwrite the first line with the smallest time stamp,
        and report the replaced slot (-1 for an invalid one) together with
        the tag it held before the overwrite. */
    method LruAdd(addr: nat) returns (evict: int, victimTag: nat)
      requires Valid() && numSets > 0 && refs < UINT32_MAX && addr < WORD
      modifies this, lines
      ensures Valid()
      ensures FillResult(State(), evict, victimTag) == FillStep(Config(), old(State()), addr)
    {
      var index := IndexOf(addr, w);
      var tag := TagOf(addr, w);
      FillKeepsBounded(Config(), State(), addr);
      var free;
      free, evict := FindSlot(index, contents[index]);
      if free >= 0 {
        // the first invalid line takes the block
        FillStepAt(Config(), State(), addr, free);
        lines[index, free] := Line(tag, refs, true);
        contents := contents[index := contents[index][free := Line(tag, refs, true)]];
        return -1, 0;
      }
      // every line is valid: overwrite the least recently used one
      FillStepAt(Config(), State(), addr, evict);
      victimTag := lines[index, evict].tag;
      lines[index, evict] := lines[index, evict].(timeStamp := refs, tag := tag);
      contents := contents[index := contents[index][evict := Line(tag, refs, true)]];
    }

    /** The loop of lru_evict over set index, whose lines are row: invalidate
        every valid line that carries tag; no other set changes. */
    method ClearTag(index: nat, tag: nat, ghost row: seq<Line>)
      requires index < lines.Length0 && |row| == lines.Length1
      requires forall k :: 0 <= k < lines.Length1 ==> lines[index, k] == row[k]
      modifies lines
      ensures forall k :: 0 <= k < lines.Length1 ==> lines[index, k] == Invalidated(row, tag)[k]
      ensures forall s, k :: 0 <= s < lines.Length0 && s != index && 0 <= k < lines.Length1 ==>
                lines[s, k] == old(lines[s, k])
    {
      for k := 0 to lines.Length1
        invariant forall s, j :: 0 <= s < lines.Length0 && s != index && 0 <= j < lines.Length1 ==>
                    lines[s, j] == old(lines[s, j])
        invariant forall j :: 0 <= j < k ==> lines[index, j] == Clear(row[j], tag)
        invariant forall j :: k <= j < lines.Length1 ==> lines[index, j] == row[j]
      {
        if lines[index, k].isValid && lines[index, k].tag == tag {
          lines[index, k] := lines[index, k].(isValid := false);
        }
      }
    }

    /** One level's part of lru_evict: when the level is present, split a
        rebuilt block address with this level's geometry and invalidate that
        tag in that set. */
    method Invalidate(evictAddress: nat)
      requires Valid()
      modifies this, lines
      ensures Valid()
      ensures State() == InvalidateBlock(Config(), old(State()), evictAddress)
    {
      if numSets > 0 {
        var evictTag := InclusionTag(evictAddress, w);
        var evictIndex := InclusionIndex(evictAddress, w);
        InclusionSplitAgrees(evictAddress, w);
        ClearTag(evictIndex, evictTag, contents[evictIndex]);
        contents := contents[evictIndex := Invalidated(contents[evictIndex], evictTag)];
        InvalidateOnlyClears(Config(), old(State()), evictAddress);
        OnlyClearsKeepsInv(Config(), old(State()), State());
      }
    }
  }

  /** The simulator: the three levels, the memory latency and the inclusion
      flag, and the access routines. The source's IorD selector, which tells
      the shared routines which level to work on, is the receiver of each
      Level method here. */
  class Hierarchy {
    const icache: Level
    const dcache: Level
    const l2: Level
    const memspeed: nat
    const inclusive: bool

    /** Everything the hierarchy's state depends on. */
    ghost function Footprint(): set<object>
      reads this
    {
      {this, icache, dcache, l2, icache.lines, dcache.lines, l2.lines}
    }

    ghost function Cfg(): Config
      reads this
    {
      Config(icache.Config(), dcache.Config(), l2.Config(), memspeed, inclusive)
    }

    /** The hierarchy as a value of the specification. */
    ghost function State(): HState
      reads this, icache, dcache, l2
    {
      HState(icache.State(), dcache.State(), l2.State())
    }

    /** Three levels with separate line arrays (so they are distinct
        objects too), each valid, all with one block size. */
    ghost predicate Valid()
      reads Footprint()
    {
      icache.lines != dcache.lines && icache.lines != l2.lines && dcache.lines != l2.lines &&
      icache.Valid() && dcache.Valid() && l2.Valid() &&
      icache.w.offset == l2.w.offset && dcache.w.offset == l2.w.offset
    }

    /** The first-level cache a side names. */
    function L1Of(side: Side): Level
      reads this
    {
      if side == ICache then icache else dcache
    }

    /** init_cache: derive the field widths of every level from the block
        size and its set count, and start every level empty with zero
        statistics. */
    constructor (blockSize: nat,
                 icacheSets: nat, icacheAssoc: nat, icacheHitTime: nat,
                 dcacheSets: nat, dcacheAssoc: nat, dcacheHitTime: nat,
                 l2cacheSets: nat, l2cacheAssoc: nat, l2cacheHitTime: nat,
                 memspeed: nat, inclusive: bool)
      requires ValidGeometry(blockSize, icacheSets, icacheAssoc)
      requires ValidGeometry(blockSize, dcacheSets, dcacheAssoc)
      requires ValidGeometry(blockSize, l2cacheSets, l2cacheAssoc)
      ensures Valid()
      ensures Cfg() == Config(LevelConfigOf(blockSize, icacheSets, icacheAssoc, icacheHitTime),
                              LevelConfigOf(blockSize, dcacheSets, dcacheAssoc, dcacheHitTime),
                              LevelConfigOf(blockSize, l2cacheSets, l2cacheAssoc, l2cacheHitTime),
                              memspeed, inclusive)
      ensures State() == InitState(Cfg())
    {
      var ic := LevelConfigOf(blockSize, icacheSets, icacheAssoc, icacheHitTime);
      var dc := LevelConfigOf(blockSize, dcacheSets, dcacheAssoc, dcacheHitTime);
      var lc := LevelConfigOf(blockSize, l2cacheSets, l2cacheAssoc, l2cacheHitTime);
      icache := new Level(icacheSets, icacheAssoc, icacheHitTime, ic.w);
      dcache := new Level(dcacheSets, dcacheAssoc, dcacheHitTime, dc.w);
      l2 := new Level(l2cacheSets, l2cacheAssoc, l2cacheHitTime, lc.w);
      this.memspeed := memspeed;
      this.inclusive := inclusive;
    }

    /** An update that changes only L2 and keeps it valid keeps the
        hierarchy valid and changes the state at L2 alone. */
    twostate lemma L2Written()
      requires old(Valid()) && l2.Valid()
      requires unchanged(icache, icache.lines, dcache, dcache.lines)
      ensures Valid()
      ensures State() == old(State()).(l2 := l2.State())
    {
    }

    /** An update that changes only the first-level cache of one side and
        keeps it valid keeps the hierarchy valid and changes the state at
        that cache alone. */
    twostate lemma L1Written(side: Side)
      requires old(Valid()) && L1Of(side).Valid()
      requires unchanged(l2, l2.lines)
      requires side == ICache ==> unchanged(dcache, dcache.lines)
      requires side == DCache ==> unchanged(icache, icache.lines)
      ensures Valid()
      ensures State() == WithL1(old(State()), side, L1Of(side).State())
    {
    }

    /** The miss count of a first-level access (icacheMisses++ or dcacheMisses++). */
    method CountL1Miss(side: Side)
      requires Valid()
      modifies L1Of(side)
      ensures Valid()
      ensures State() == MissCounted(old(State()), side)
    {
      L1Of(side).CountMiss();
      L1Written(side);
    }

    /** lru_evict: rebuild the address of the replaced L2 block from the tag
        it held before the fill and the set index of the filled address, and
        invalidate that block in I$ and D$ (each skipped when absent). */
    method LruEvict(addr: nat, victimTag: nat)
      requires Valid()
      modifies icache, icache.lines, dcache, dcache.lines
      ensures Valid()
      ensures State() == EvictStep(Cfg(), old(State()), victimTag, IndexOf(addr, l2.w))
    {
      var index := IndexOf(addr, l2.w);
      var evictAddress := EvictAddress(victimTag, index, l2.w);
      icache.Invalidate(evictAddress);
      dcache.Invalidate(evictAddress);
    }

    /** l2cache_access: an absent L2 costs memspeed; otherwise count the
        reference and look the address up, and on a miss take the miss path. */
    method L2Access(addr: nat) returns (accessTime: nat)
      requires Valid() && addr < WORD && l2.refs + 1 < UINT32_MAX
      modifies icache, dcache, l2, icache.lines, dcache.lines, l2.lines
      ensures Valid()
      ensures (State(), accessTime) == L2Step(Cfg(), old(State()), addr)
    {
      if l2.numSets == 0 {
        return memspeed;
      }
      l2.CountReference();
      ghost var counted := l2.State();
      var miss := l2.IsMiss(addr);
      L2Written();
      if !miss {
        return l2.hitTime;
      }
      LookupMissKeeps(Cfg().l2, counted, addr);
      accessTime := L2MissPath(addr);
    }

    /** The miss path of l2cache_access: count the miss and its memory
        penalty, fill the block and, under the inclusion policy, invalidate a
        replaced block in I$ and D$. */
    method L2MissPath(addr: nat) returns (accessTime: nat)
      requires Valid() && addr < WORD && l2.refs < UINT32_MAX && l2.numSets > 0
      modifies icache, dcache, l2, icache.lines, dcache.lines, l2.lines
      ensures Valid()
      ensures (State(), accessTime) == L2Miss(Cfg(), old(State()), addr)
    {
      l2.CountMiss();
      l2.AddPenalty(memspeed);
      accessTime := l2.hitTime + memspeed;
      var evict, victimTag := l2.LruAdd(addr);
      L2Written();
      if inclusive && evict >= 0 {
        LruEvict(addr, victimTag);
      }
    }

    /** icache_access: an absent I$ passes the access to L2; otherwise count
        the reference and look the address up, and on a miss take the miss
        path. */
    method ICacheAccess(addr: nat) returns (accessTime: nat)
      requires Valid() && addr < WORD
      requires icache.refs + 1 < UINT32_MAX && l2.refs + 1 < UINT32_MAX
      modifies icache, dcache, l2, icache.lines, dcache.lines, l2.lines
      ensures Valid()
      ensures (State(), accessTime) == L1Step(Cfg(), old(State()), ICache, addr)
    {
      if icache.numSets == 0 {
        accessTime := L2Access(addr);
        return;
      }
      ghost var start := State();
      icache.CountReference();
      ghost var counted := icache.State();
      var miss := icache.IsMiss(addr);
      L1Written(ICache);
      if !miss {
        L1HitBranch(Cfg(), start, ICache, addr);
        return icache.hitTime;
      }
      L1MissBranch(Cfg(), start, ICache, addr);
      LookupMissKeeps(icache.Config(), counted, addr);
      accessTime := ICacheMiss(addr);
    }

    /** The miss path of icache_access: count the miss, access L2, fill the
        I$ itself, and add the L2 latency to its penalties. */
    method ICacheMiss(addr: nat) returns (accessTime: nat)
      requires Valid() && addr < WORD && icache.numSets > 0
      requires icache.refs < UINT32_MAX && l2.refs + 1 < UINT32_MAX
      modifies icache, dcache, l2, icache.lines, dcache.lines, l2.lines
      ensures Valid()
      ensures (State(), accessTime) == L1Miss(Cfg(), old(State()), ICache, addr)
    {
      ghost var cfg, start := Cfg(), State();
      CountL1Miss(ICache);
      ghost var counted := State();
      var l2AccessTime := L2Access(addr);
      ghost var accessed := State();
      L1MissSteps(cfg, start, ICache, addr, counted, accessed, l2AccessTime);
      ICacheFill(addr, l2AccessTime);
      accessTime := icache.hitTime + l2AccessTime;
    }

    /** The end of a miss of icache_access: lru_add into the I$ itself, then
        add the L2 latency to its penalties. */
    method ICacheFill(addr: nat, latency: nat)
      requires Valid() && addr < WORD && icache.numSets > 0 && icache.refs < UINT32_MAX
      modifies icache, icache.lines
      ensures Valid()
      ensures State() == L1Fill(Cfg(), old(State()), ICache, addr, latency)
    {
      var evict, victimTag := icache.LruAdd(addr);
      icache.AddPenalty(latency);
      L1Written(ICache);
    }

    /** dcache_access: an absent D$ passes the access to L2; otherwise count
        the reference and look the address up, and on a miss take the miss
        path. */
    method DCacheAccess(addr: nat) returns (accessTime: nat)
      requires Valid() && addr < WORD
      requires dcache.refs + 1 < UINT32_MAX && l2.refs + 1 < UINT32_MAX
      modifies icache, dcache, l2, icache.lines, dcache.lines, l2.lines
      ensures Valid()
      ensures (State(), accessTime) == L1Step(Cfg(), old(State()), DCache, addr)
    {
      if dcache.numSets == 0 {
        accessTime := L2Access(addr);
        return;
      }
      ghost var start := State();
      dcache.CountReference();
      ghost var counted := dcache.State();
      var miss := dcache.IsMiss(addr);
      L1Written(DCache);
      if !miss {
        L1HitBranch(Cfg(), start, DCache, addr);
        return dcache.hitTime;
      }
      L1MissBranch(Cfg(), start, DCache, addr);
      LookupMissKeeps(dcache.Config(), counted, addr);
      accessTime := DCacheMiss(addr);
    }

    /** The miss path of dcache_access: count the miss, access L2, fill the
        D$ itself, and add the L2 latency to its penalties. */
    method DCacheMiss(addr: nat) returns (accessTime: nat)
      requires Valid() && addr < WORD && dcache.numSets > 0
      requires dcache.refs < UINT32_MAX && l2.refs + 1 < UINT32_MAX
      modifies icache, dcache, l2, icache.lines, dcache.lines, l2.lines
      ensures Valid()
      ensures (State(), accessTime) == L1Miss(Cfg(), old(State()), DCache, addr)
    {
      ghost var cfg, start := Cfg(), State();
      CountL1Miss(DCache);
      ghost var counted := State();
      var l2AccessTime := L2Access(addr);
      ghost var accessed := State();
      L1MissSteps(cfg, start, DCache, addr, counted, accessed, l2AccessTime);
      DCacheFill(addr, l2AccessTime);
      accessTime := dcache.hitTime + l2AccessTime;
    }

    /** The end of a miss of dcache_access: lru_add into the D$ itself, then
        add the L2 latency to its penalties. */
    method DCacheFill(addr: nat, latency: nat)
      requires Valid() && addr < WORD && dcache.numSets > 0 && dcache.refs < UINT32_MAX
      modifies dcache, dcache.lines
      ensures Valid()
      ensures State() == L1Fill(Cfg(), old(State()), DCache, addr, latency)
    {
      var evict, victimTag := dcache.LruAdd(addr);
      dcache.AddPenalty(latency);
      L1Written(DCache);
    }
  }
}
