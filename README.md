# Cache hierarchy simulator model

This project models `src/cache.c`, the core of a trace-driven cache simulator.
The simulated hierarchy has three levels:

- an instruction cache (I$);
- a data cache (D$);
- a shared second-level cache (L2) that both fall back to.

Each level is set-associative with LRU replacement. Any level can be absent, which means it has zero sets. Under the optional inclusion policy, a block that L2 replaces is invalidated in I$ and D$.

The model has three layers.

- **Value layer.**
  - `Geometry` holds the integer `calc_log2` and the field widths that `init_cache` derives.
  - `Address` models the shift arithmetic that splits an address into tag and set index. It also rebuilds the address of a replaced L2 block and splits it again under I$ and D$ geometry.
  - `LineSet` models the three scans over one set: lookup with recency touch, fill with LRU choice, and invalidation by tag.
- **Specification layer.**
  - `HierarchySpec` describes the whole hierarchy as a value. The three access routines `icache_access`, `dcache_access` and `l2cache_access` are functions from a state to the next state and the access latency.
  - `LevelProps` and `HierarchyProps` prove properties of these functions:
    - the statistics and latency of every path;
    - that lookup and fill change exactly what the source changes;
    - that the shape, bounds and unique-tag invariants survive every access;
    - that an access leaves its block cached;
    - that under the inclusion policy every block in I$ or D$ is also in L2.
- **Imperative layer.**
  - `Simulator.Level` is one level. Its sets are a two-dimensional array of lines, updated in place, and its statistics are counters.
  - `Simulator.Hierarchy` owns the three levels and runs the access routines.
  - Every method is proved to produce exactly the state and latency of the specification functions, so the properties above hold for the simulator.
  - The source's global selector `IorD` names the level that the shared routines `is_miss` and `lru_add` work on. In the model it becomes the receiver of each `Level` method. The I$ and D$ routines are separate methods, as in the source.

The live code has two ordering defects. In both, the model follows the commented-out reference bodies of the same file, not the live code. `## Findings` describes both defects, and `Findings` models each one as written, with a lemma that exhibits it.

- **First-level fills land in L2.**
  - `l2cache_access` sets `IorD` to L2 before it returns.
  - So the `lru_add` that then runs in `icache_access` and `dcache_access` fills L2, not the first-level cache.
  - The model fills the first-level cache.
- **Inclusion reads the overwritten tag.**
  - `lru_evict` reads the tag of the replaced L2 line after `lru_add` has overwritten it.
  - The model's `lru_add` returns the victim's tag read before the overwrite, and the inclusion step uses that tag.
  - While the first defect stands, this one is latent: I$ and D$ are never filled, so no first-level line can be left behind. It shows once the first-level fills are corrected.

The shifts use the guarded semantics: shifting a 32-bit word by 32 or more gives 0. Under that semantics a level with one set (index width 0) selects set 0. `## Findings` records what the source's shift by 32 does instead.

## Model

| member | source | states |
|---|---|---|
| Geometry.Log2 | src/cache.c:112-117 | 0 for x <= 1; otherwise the k with 2^k <= x < 2^(k+1), the integer part of log2 |
| Geometry.Log2OfPow2 | src/cache.c:115-116 | on a power of two 2^k the logarithm is exactly k |
| Geometry.ResolveWidths | src/cache.c:279-291 | offset + index + tag widths equal ADDR_SIZE (32); 2^offset is the block size; 2^index is the set count; zero or one set gives index width 0 |
| HierarchySpec.LevelConfigOf | src/cache.c:279-291 | a valid geometry yields a level whose 2^index equals its set count and whose block size is 2^offset |
| Address.TagOf | src/cache.c:124 | the tag of a 32-bit address is below 2^tagWidth |
| Address.IndexOf | src/cache.c:125 | the set index is below 2^indexWidth, the number of sets |
| Address.Decompose | src/cache.c:124-125 | tag and index are the high and low parts of the block number (address div block size) split at 2^indexWidth |
| Address.Shr | src/cache.c:124 | the logical right shift `>>` of the tag and index expressions, under the guarded semantics; it never exceeds its operand |
| Address.Shl | src/cache.c:125 | the logical left shift `<<` of a 32-bit word in the index expressions, one doubling at a time; the result is a 32-bit word |
| Address.IndexOfAsWritten | src/cache.c:125 | the index expression evaluated with shift counts masked to 5 bits, as x86 hardware does; the result is a 32-bit word |
| Address.ShlValue | src/cache.c:125 | a left shift by n is multiplication by 2^n reduced modulo 2^32 |
| Address.ShiftByFullWidth | src/cache.c:125 | a word shifted left or right by 32 or more bits is 0 |
| Address.EvictAddressFields | src/cache.c:647 | for an in-range tag and index the high field of the rebuilt address is a multiple of 2^(offset + index) and the low field is below it, so the fields can be added instead of or'd; the result is a block-aligned word whose block number is tag * 2^index + index under every geometry with the same block size |
| Address.EvictAddress | src/cache.c:647 | the block address rebuilt from an L2 tag and set index: the tag shifted left by offset + index plus the index shifted left by offset, each shift a 32-bit word, so the result is below 2^33 (below 2^32 and block-aligned by EvictAddressFields) |
| Address.InclusionTag | src/cache.c:651 | the first-level tag the inclusion code computes, the rebuilt address shifted right by offset + index; for a 32-bit address it is below 2^tagWidth |
| Address.InclusionIndex | src/cache.c:652 | the first-level set index the inclusion code computes, the rebuilt address shifted left by the tag width and then right by tag + offset; it is below 2^indexWidth, the set count |
| Address.EvictAddressRoundTrip | src/cache.c:647 | splitting the rebuilt L2 block address under the L2 geometry gives back the tag and the set index |
| Address.InclusionSplitAgrees | src/cache.c:651-652 | the split used by the inclusion code equals the lookup split, because tag + offset = 32 - index and offset + index = 32 - tag |
| Address.EvictAddressUnder | src/cache.c:665-666 | under a first-level geometry with the same block size the rebuilt address splits into the high and low parts of the L2 block number |
| Address.OneSetIndexAsWritten | src/cache.c:125 | with 16-byte blocks and one set, address 1 with hardware-masked shift counts selects set 2^28; the guarded split selects set 0 |
| LineSet.FindHit | src/cache.c:127-136 | the first valid line carrying the tag; none exactly when no valid line carries it |
| LineSet.FirstInvalid | src/cache.c:181-188 | the lowest-numbered invalid line; none exactly when every line is valid |
| LineSet.LruVictim | src/cache.c:189-196 | a line with the least time stamp, and the first such (strict comparison) |
| LineSet.FillSlot | src/cache.c:181-197 | the slot lru_add fills: the first invalid line, else the LRU victim; always a line of the set |
| LineSet.Touch | src/cache.c:127-136 | the set after a lookup: the first line holding the tag gets the clock as time stamp; the set keeps its length and is unchanged when no line holds the tag (TouchEffect gives the full effect) |
| LineSet.Install | src/cache.c:179-201 | the set after lru_add: (tag, clock, valid) written into the fill slot; the set keeps its length and afterwards holds the tag (InstallEffect gives the full effect) |
| LineSet.Invalidated | src/cache.c:653-660 | the set after one inclusion loop: every valid line carrying the tag becomes invalid; the set keeps its length and afterwards no valid line carries the tag (InvalidatedEffect gives the full effect) |
| LineSet.TouchEffect | src/cache.c:127-136 | a lookup changes only the time stamp of the first line holding the tag, to the clock; a miss changes nothing |
| LineSet.InstallEffect | src/cache.c:179-201 | a fill writes (tag, clock, valid) into the first invalid slot, or else into the first least-recent slot; no other line changes; the set then holds the tag |
| LineSet.InstallKeepsOthers | src/cache.c:179-201 | every tag held before a fill is still held unless its line was the one replaced |
| LineSet.InvalidatedEffect | src/cache.c:653-660 | invalidation clears exactly the valid lines carrying the tag, keeps tags and time stamps, and leaves no valid line with that tag |
| LineSet.InstallKeepsNoDup | src/cache.c:181-200 | filling a tag the set does not hold keeps tags unique in the set |
| LineSet.ValidCountBound | src/cache.c:181-200 | a set never holds more valid lines than it has lines; HierarchyProps.CapacityBound turns this into the associativity bound |
| LineSet.LruEvictsLeastRecent | src/cache.c:172-201 | in a two-line set: fill 0, fill 1, touch 0, fill 2 replaces block 1 |
| HierarchySpec.InitLevel | src/cache.c:297-325 | every line of every set starts invalid with tag and time stamp 0; every statistic starts at 0 |
| HierarchySpec.InitState | src/cache.c:261-326 | the hierarchy init_cache builds: each level of the configured shape with every line invalid; every reference, miss and penalty counter of the three levels is 0 (the invariants it satisfies are in InitStateInvariants) |
| HierarchySpec.LookupStep | src/cache.c:119-170 | is_miss on one level: the miss flag and the level after the first hit line's time stamp is set to the level's reference count; the level keeps its shape and its counters (LookupStepEffect gives the full effect) |
| HierarchySpec.FillStep | src/cache.c:172-259 | lru_add on one level: the level with the address's tag installed in the indexed set at the level's clock, the replaced slot (-1 when an invalid slot was filled) and the tag that slot held before; shape and counters are kept and the slot is -1 or a line of the set (FillStepEffect gives the full effect) |
| HierarchySpec.InvalidateBlock | src/cache.c:649-675 | one level's inclusion loop: the set named by InclusionIndex of the rebuilt address with every valid line of tag InclusionTag invalidated, or the level unchanged when it is absent; shape and counters are kept (InvalidateExactlyVictim gives the effect) |
| HierarchySpec.EvictStep | src/cache.c:639-676 | lru_evict: the rebuilt address of the replaced L2 block invalidated in I$ and then in D$; L2 and the shapes are unchanged |
| HierarchySpec.L2Step | src/cache.c:606-637 | l2cache_access: memspeed and no change for an absent L2; otherwise the reference counted and the lookup done, with the hit time on a hit and the miss path on a miss; shapes are kept (L2AccessHit, L2AccessMiss and L2Latency state the outcome) |
| HierarchySpec.L2Miss | src/cache.c:622-629 | the L2 miss path: a miss and memspeed counted, the block filled, and under inclusion a replaced block invalidated in I$ and D$, at hit time plus memspeed; shapes are kept |
| HierarchySpec.L1Step | src/cache.c:386-417 | icache_access, and dcache_access (src/cache.c:480-510) for the D$ side: an absent level passes the access to L2; otherwise the reference counted and the lookup done, with the hit time on a hit and the miss path on a miss; shapes are kept (L1AccessHit, L1AccessMiss and L1StepHoldsAddress state the outcome) |
| HierarchySpec.MissCounted | src/cache.c:404 | the first-level miss count incremented (icacheMisses or dcacheMisses); L2 is unchanged |
| HierarchySpec.L1Miss | src/cache.c:404-408 | the first-level miss path: the miss counted, the L2 access, then the fill of the first-level cache, at hit time plus the L2 latency; shapes are kept |
| HierarchySpec.L1Fill | src/cache.c:356-383 | the end of a first-level miss as the reference bodies do it: lru_add into the first-level cache itself and the L2 latency added to its penalties; L2 and the shapes are unchanged |
| LevelProps.AddressBlock | src/cache.c:124-125 | the block named by an address's tag and set index is the address's block number |
| LevelProps.LookupStepEffect | src/cache.c:124-136 | is_miss reports a miss exactly when no valid line of the indexed set carries the tag, and then changes nothing; on a hit only the first such line changes, and only its time stamp, which becomes the level's reference count; no other set changes |
| LevelProps.LookupKeepsHolds | src/cache.c:132 | a lookup does not change which blocks the level holds |
| LevelProps.LookupHoldsAddress | src/cache.c:127-134 | after a hit the level holds the address's block |
| LevelProps.FillStepEffect | src/cache.c:172-201 | lru_add returns -1 and fills the lowest invalid slot when there is one; otherwise it returns the first least-recent slot and the tag that slot held before; only that line of that set changes |
| LevelProps.FillHoldsAddress | src/cache.c:184-200 | after a fill the level holds the address's block |
| LevelProps.FillKeepsHolds | src/cache.c:198-200 | a fill keeps every block the level held except the replaced one, which is named by the victim tag and the set |
| LevelProps.FillKeepsNoDup | src/cache.c:181-200 | filling after a miss on the same level keeps tags unique in every set |
| LevelProps.InvalidateOnlyClears | src/cache.c:649-675 | the inclusion loops only clear validity; tags, time stamps, statistics and set sizes are unchanged |
| LevelProps.InvalidateExactlyVictim | src/cache.c:645-675 | invalidating the rebuilt block clears exactly the valid lines that cache that block, whatever the first-level set count |
| HierarchyProps.InitStateInvariants | src/cache.c:261-326 | the initial state satisfies the shape and bounds invariant, unique tags and inclusion |
| HierarchyProps.LevelCapacity | src/cache.c:181-200 | in a level of the configured shape every set holds at most associativity valid lines |
| HierarchyProps.CapacityBound | src/cache.c:181-200 | under the invariant every set of I$, D$ and L2 holds at most that level's associativity valid lines |
| HierarchyProps.L2AccessBypass | src/cache.c:615-617 | an absent L2 costs memspeed and changes nothing |
| HierarchyProps.L2HitsLookup | src/cache.c:620-621 | the L2 lookup reports a hit exactly when a valid line of the set carries the tag |
| HierarchyProps.L2AccessHit | src/cache.c:620-633 | an L2 hit counts one reference, costs the L2 hit time, keeps the blocks L2 holds, and leaves I$ and D$ alone |
| HierarchyProps.L2AccessMiss | src/cache.c:620-629 | an L2 miss counts a reference and a miss, adds memspeed to the penalties, costs hit time plus memspeed, and leaves the block in L2; I$ and D$ change only under inclusion on a full set |
| HierarchyProps.L2AccessBackInvalidates | src/cache.c:626-628 | under inclusion, a miss on a full set invalidates in I$ and D$ exactly the lines caching the replaced block |
| HierarchyProps.L2StepClearsL1 | src/cache.c:627-628 | an L2 access only ever clears first-level lines, and without inclusion leaves them untouched |
| HierarchyProps.L2StepReadsOnlyL2 | src/cache.c:606-637 | the L2 result and latency depend on the L2 state alone |
| HierarchyProps.L2Latency | src/cache.c:615-636 | the L2 latency is memspeed when L2 is absent, else the hit time or hit time plus memspeed |
| HierarchyProps.L1AccessBypass | src/cache.c:396-398 | an absent first-level cache returns exactly the L2 access and keeps its own counters |
| HierarchyProps.L1HitsLookup | src/cache.c:401-402 | the first-level lookup reports a hit exactly when a valid line of the set carries the tag |
| HierarchyProps.L1AccessHit | src/cache.c:401-413 | a first-level hit counts a reference, costs the level's hit time, and changes nothing outside that level |
| HierarchyProps.L1AccessMiss | src/cache.c:401-408 | a first-level miss counts a reference and a miss, adds the L2 latency to the penalties, costs hit time plus that latency, and leaves L2 as the L2 access leaves it |
| HierarchyProps.L1MissSteps | src/cache.c:404-408 | the miss path is the L2 access, then the fill of the first-level cache with the L2 latency added to its penalties |
| HierarchyProps.L2StepKeepsInv | src/cache.c:606-637 | every L2 access keeps shapes, time stamps at most the clock, and tags within their width |
| HierarchyProps.L1StepKeepsInv | src/cache.c:386-417 | every first-level access keeps the same invariant |
| HierarchyProps.L2StepKeepsNoDup | src/cache.c:620-628 | every L2 access keeps tags unique within every set of every level |
| HierarchyProps.L1StepKeepsNoDup | src/cache.c:401-408 | every first-level access keeps tags unique within every set of every level |
| HierarchyProps.L2StepHoldsAddress | src/cache.c:620-628 | after an access to a present L2, the L2 holds the address's block |
| HierarchyProps.L1MissHoldsAddress | src/cache.c:404-407 | after a first-level miss, that cache holds the address's block |
| HierarchyProps.L1StepHoldsAddress | src/cache.c:401-413 | after an access through a present I$ or D$, that cache holds the address's block |
| HierarchyProps.L2MissKeepsIncluded | src/cache.c:626-628 | under inclusion, the miss path keeps a first-level cache included in L2 |
| HierarchyProps.L2StepKeepsInclusive | src/cache.c:606-637 | under inclusion, every L2 access keeps every block of I$ and D$ in L2 |
| HierarchyProps.L1StepKeepsInclusive | src/cache.c:386-417 | under inclusion, every first-level access keeps every block of I$ and D$ in L2 |
| Simulator.Level.constructor | src/cache.c:297-325 | a level's array has set-count by associativity lines, all invalid with tag and time stamp 0, and zero statistics |
| Simulator.Level.CountReference | src/cache.c:401 | refs++ (icacheRefs at 401, dcacheRefs at 494, l2cacheRefs at 620); the level stays valid and only its reference count changes |
| Simulator.Level.CountMiss | src/cache.c:404 | misses++ (at 404, 497 and 623); the level stays valid and only its miss count changes |
| Simulator.Level.AddPenalty | src/cache.c:407 | penalties += latency (at 407, 500 and 624); the level stays valid and only its penalty total changes |
| Simulator.Level.FindLine | src/cache.c:127-136 | the scan returns the first valid line carrying the tag, or -1 exactly when there is none |
| Simulator.Level.IsMiss | src/cache.c:119-170 | the level and the result are exactly those of the lookup specification |
| Simulator.Level.FindSlot | src/cache.c:179-197 | the running-minimum scan returns the first invalid line, or, when every line is valid, the first line with the least time stamp |
| Simulator.Level.LruAdd | src/cache.c:172-259 | the level, the replaced slot and the victim tag read before the overwrite are exactly those of the fill specification |
| Simulator.Level.ClearTag | src/cache.c:653-660 | one set's lines become its invalidated lines; no other set changes |
| Simulator.Level.Invalidate | src/cache.c:649-661 | the level becomes the specification's invalidation of the rebuilt block; an absent level is skipped |
| Simulator.Hierarchy.constructor | src/cache.c:261-326 | the three levels get the derived widths, and the state is the all-invalid initial state |
| Simulator.Hierarchy.CountL1Miss | src/cache.c:404 | icacheMisses++ or dcacheMisses++ (line 497); the hierarchy stays valid and becomes MissCounted of the old state |
| Simulator.Hierarchy.LruEvict | src/cache.c:639-676 | the hierarchy becomes the specification's back-invalidation of the replaced block |
| Simulator.Hierarchy.L2Access | src/cache.c:606-637 | the state and the latency are exactly those of the L2 access specification |
| Simulator.Hierarchy.L2MissPath | src/cache.c:622-629 | the state and the latency are exactly those of the L2 miss specification |
| Simulator.Hierarchy.ICacheAccess | src/cache.c:386-417 | the state and the latency are exactly those of the first-level access specification for I$ |
| Simulator.Hierarchy.ICacheMiss | src/cache.c:404-408 | the state and latency of the I$ miss path, with the fill in I$ |
| Simulator.Hierarchy.ICacheFill | src/cache.c:406-407 | the end of an I$ miss, done as the reference body at 360-383 does it: lru_add into I$ itself and the L2 latency added to its penalties; the state becomes L1Fill of the old state |
| Simulator.Hierarchy.DCacheAccess | src/cache.c:480-510 | the state and the latency are exactly those of the first-level access specification for D$ |
| Simulator.Hierarchy.DCacheMiss | src/cache.c:497-501 | the state and latency of the D$ miss path, with the fill in D$ |
| Simulator.Hierarchy.DCacheFill | src/cache.c:499-500 | the end of a D$ miss, done as the reference body at 453-476 does it: lru_add into D$ itself and the L2 latency added to its penalties; the state becomes L1Fill of the old state |
| Findings.L1MissAsWritten | src/cache.c:404-408 | the first-level miss path as written: the miss counted, the L2 access, a second lru_add into L2 under the selector L2 left behind, and the L2 latency added to the first-level penalties; shapes are kept |
| Findings.OverwrittenTag | src/cache.c:645 | the tag lru_evict reads from the replaced L2 slot after the fill; that slot is valid and holds it |
| Findings.L2MissAsWritten | src/cache.c:622-629 | the L2 miss path as written, with the inclusion step rebuilding the evicted address from the overwritten tag; shapes are kept |
| Findings.L1MissAsWrittenLeavesBlockOut | src/cache.c:405-406 | as written, a first-level miss leaves the block out of that cache, at the same latency as the corrected path |
| Findings.OverwrittenTagIsNewTag | src/cache.c:645 | the tag read back from the replaced slot is the new address's own tag |
| Findings.L2MissAsWrittenBreaksInclusion | src/cache.c:626-628 | as written, an L2 miss that replaces a block cached in I$ or D$ leaves an inclusion violation |

## Left out

- Console output: the `printf` calls of `init_cache` are I/O and are not modelled.
- Allocation: the `malloc` of set and line arrays becomes the allocation of one two-dimensional array per level in `Simulator.Level`'s constructor. Memory is never freed, as in the source.
- Floating-point `log2`: `calc_log2` calls the math library on powers of two. `Geometry.Log2` is the integer logarithm, which agrees with it on powers of two.
- Geometry out of range: configurations with a block size or set count that is not a power of two are excluded by `ValidGeometry`. So are configurations whose offset and index widths exceed 32 bits. So is a present level with associativity 0: its `lru_add` finds no slot, leaves `evict` at -1 and writes `blockList[-1]` (src/cache.c:199-200), which C leaves undefined.
- Integer widths:
  - Reference counts are `uint64_t` and time stamps `uint32_t`. The model bounds every reference count below 2^32 - 1 (a `requires` on the access methods) instead of modelling truncation.
  - The bound also keeps every time stamp below the `UINT32_MAX` start value of the LRU scan, so the scan always finds a victim.
  - The signed `int` tag and index locals are modelled as unsigned. The index always fits an `int`. The tag can exceed `INT_MAX` when its width is 32, which is block size 1 with one set and an address of 2^31 or more. The compare and the store convert it back to `uint32_t` (src/cache.c:130, 187), so the behaviour is the same.
  - Addresses are required to be below 2^32, the range of `uint32_t`.
  - Hit times, memspeed and latencies are unbounded naturals. The source adds them as `uint32_t` values, so a sum at or above 2^32 wraps, and the wrapped value is added to the `uint64_t` penalties. The members below, and the lemmas that state their latencies (HierarchyProps.L2AccessMiss, HierarchyProps.L2Latency, HierarchyProps.L1AccessMiss), use the exact sums instead.
- HierarchySpec.L2Miss: the latency l2cacheHitTime + memspeed is not reduced modulo 2^32 as the `uint32_t` sum at src/cache.c:625 is.
- HierarchySpec.L1Miss: the latency hit time + L2 latency is not reduced modulo 2^32 as the `uint32_t` sums at src/cache.c:408 and 501 are, and the penalty added at src/cache.c:407 and 500 is the unwrapped L2 latency.
- Simulator.Hierarchy.L2MissPath: computes the same unwrapped sum as HierarchySpec.L2Miss.
- Simulator.Hierarchy.ICacheMiss: computes the same unwrapped sum as HierarchySpec.L1Miss.
- Simulator.Hierarchy.DCacheMiss: computes the same unwrapped sum as HierarchySpec.L1Miss.
- The shared-routine dispatch on `IorD`: the three copies of `is_miss` and `lru_add` become one `Level` method each, called on the level the selector would name. No value of the selector other than the three is modelled.
- The identity strings, the trace driver, command-line configuration and statistics printing are outside the core and are not modelled. The constants `ADDR_SIZE`, `TRUE` and `FALSE` come from `cache.h`, which is not part of this model. `ADDR_SIZE` is taken as 32 and the booleans as `bool`.
- Scan, then write: where the source writes a line inside its scan loop and returns, the lookup and fill methods of `Simulator.Level` finish the same scan and then write the one line it selected. The final state is the same.
- The as-written first-level miss of `Findings` excludes an absent L2, because `lru_add` would then index a zero-length set list, which the source leaves undefined.

## Findings

| source | as written | input that shows it | evidently intended | confidence | as-written member | corrected member |
|---|---|---|---|---|---|---|
| src/cache.c:405-406 | `l2cache_access` sets `IorD` to L2 (line 613), so the `lru_add` after it in `icache_access` (and `dcache_access`, line 499) fills L2 again, and the first-level cache is never filled | any access that misses in a present I$ with a present L2; afterwards I$ still misses on the same block | fill the first-level cache after the L2 access, as the commented-out reference bodies do | not executed; follows from the control flow | Findings.L1MissAsWritten, Findings.L1MissAsWrittenLeavesBlockOut | HierarchySpec.L1Miss, HierarchyProps.L1MissHoldsAddress |
| src/cache.c:645 | `lru_evict` reads the victim's tag from the replaced slot after `lru_add` overwrote it (line 256), so under inclusion it invalidates the block just fetched instead of the replaced one. In the live program the effect is latent: because of the row above, I$ and D$ stay empty after `init_cache`, so there is nothing to leave behind. It shows once first-level fills go to the first-level cache, as in the reference body at lines 360-383 | with first-level fills corrected: 16-byte blocks, a one-line I$ and a one-line L2 that both hold block 0, inclusion on; a miss on address 16 leaves I$ holding block 0 and L2 holding only block 1 | read the victim tag before the overwrite, as the commented-out reference body does (line 568) | not executed; follows from the control flow | Findings.L2MissAsWritten, Findings.L2MissAsWrittenBreaksInclusion | HierarchySpec.L2Miss, HierarchyProps.L2MissKeepsIncluded |
| src/cache.c:125 | with one set the index width is 0, and the index expression shifts a 32-bit word right by 32, which C leaves undefined; hardware that masks shift counts does not shift at all. The same shift by 32 occurs in every index expression when the index width is 0 (lines 141, 157, 177, 206, 234 and 643, and lines 652 and 666 for a first-level index width of 0). It occurs in the tag shift at line 124 (and its copies) when the tag width is 0, and in the `addr << tagSize` of the index expressions when the tag width is 32. The row covers all of these lines; the guarded `Shr` and `Shl` model every one of them the same way | 16-byte blocks, a one-set cache, address 1: the masked result is set 2^28 of a one-set list | select set 0: a one-set (fully associative) level has only that set | not executed; depends on the compiler and the hardware | Address.IndexOfAsWritten, Address.OneSetIndexAsWritten | Address.IndexOf |
