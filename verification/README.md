# A verified model of mdraid's coding, buffer cache and bio prisons

This project models three components in Dafny and proves what they promise.

* **RAID-6 and Reed-Solomon coding** (`isa-l/`). `Galois` builds GF(2^8) from doubling with
  0x1d and proves the literal log and antilog tables right. `LinearAlgebra` and `MatrixInverse`
  carry the in-place Gauss-Jordan inversion on flat arrays, `Cauchy` the generator whose every k
  rows can be inverted, `ErasureCode` the encoders and update routines, portable and blocked, `Raid6`
  the syndrome, its incremental update, both recoveries and the decode-table cache, and
  `Raid6Fallback` the hand-over to the in-tree recovery.
* **Bio prisons** (`md/dm-bio-prison-v1.c`, `md/dm-bio-prison-v2.c`). `CellTree` is the search
  tree keyed by ranges, where overlap compares equal. `PrisonV1` is the sharded lock table,
  `DeferredSet` the 64-slot grace-period ring, `PrisonV2` the shared/exclusive lock with
  levels, parked bios and quiescing, and `PrisonSafety` what its locks are worth to those who
  asked for them.
* **dm-bufio** (`md/dm-bufio.c`). `Lru` is the clock list with its registered iterators and
  eviction loop, `BlockTree` the trees by block, `BufferCache` the hashed trees and two
  lists that must agree, `Bufio` the client: state bits, dirty ranges, write submission and the
  reserve, `BufioFlush` the flush that uses the iterators, `BufioViews` what callers see of the
  cache, `BufioRanges` that writes are no wider than the marks, and `FlushProtocol` the flush
  among the calls of others.

Code that updates state in place is a class or a method on arrays. Its new state is given by a
function of the old one, and the properties are proved about that function. Each protocol also
has a step function on values with a history (entries taken, bios detained, ranges marked), and
its theorems hold in every state that any sequence of legal steps can reach.

## What does not hold, and exactly when it does

* `lru_evict` comments that two laps find out that the predicate fails for all entries. One
  empty-handed search shows that exactly when the referenced entries come first on the ring
  (`Lru.ExhaustedConclusiveIff`); `Lru.MissedEntry` is a ring where it does not. Two in a row
  always do. As a result `cache_mark_many` can leave a cleaned buffer on the dirty list
  (`BufferCache.CleanedLeftBehind`). It leaves no match behind exactly when the unheld referenced
  buffers come first (`BufferCache.MoveAllCompleteIff`).
* In prison v2 a request that overlaps a live cell joins it and the cell keeps its own key, so
  the blocks locked need not be the blocks asked for. After a share of one block, a lock on it and
  its neighbour leaves the neighbour to other shares and other locks
  (`PrisonSafety.WideLockMissesBlock`); a lock can be told that nothing needs quiescing, and its
  continuation queued, while a share on the blocks it asked for is out
  (`PrisonSafety.WideShareUnseen`, `PrisonSafety.WideLockNotDrained`). On a set of keys all answers
  are right, in every run, exactly when overlap is transitive on the set
  (`PrisonSafety.RightAlwaysIff`), as it is for single blocks, which is all the cache target asks
  for (`CellTree.SingleBlocks`). For one call the exact conditions are
  `PrisonSafety.LockShutsIff`, `PrisonSafety.ZeroIff` and `PrisonSafety.QueuedIff`.
* Even against the keys of the cells the answers can be wrong, since a key that overlaps several
  cells meets only the topmost of them: a share, and even a second exclusive lock, is granted over
  a held one (`PrisonV2.SplitReached`, `PrisonV2.SlipsPast`). In a given tree the answer is exact
  exactly when the topmost overlapping cell bars the request if any does
  (`PrisonV2.GrantExactHere`, `PrisonV2.BusyExactHere`); over all search trees of the same cells,
  exactly when the overlapping cells agree (`PrisonV2.GrantExactIff`, `PrisonV2.BusyExactIff`). The
  last two range over every search tree, of which balancing rules out some.
* In prison v1 a bio can be promoted to holder of a cell that does not cover what it asked for,
  and another bio then holds the rest (`PrisonV1.HoldersMeet`). Holders never ask for a block in
  common, in every run on a set of keys, exactly when overlap is transitive on the set
  (`PrisonV1.NeverClashIff`).
* In prison v2 unlocking does not cancel a waiting continuation. It is queued exactly when the
  last share goes while the cell is exclusively held (`PrisonV2.ContinuationFate`): without a new
  lock it is lost (`PrisonV2.UnlockThenPut`), with one it is queued under the new owner
  (`PrisonV2.RelockQueuesStale`). Clients that quiesce once per lock and do not unlock early lose
  none (`PrisonV2.ContinuationKept`).
* The deferred set holds work back only for entries taken before it (`DeferredSet.Prompt`), unless
  all 64 slots are in use when it is added (`DeferredSet.CrowdedIff`); later entries can then hold
  it back without end (`DeferredSet.CrowdedHeldBack`).
* `dm_cell_key_has_valid_range` accepts, besides the nonempty keys inside one stretch, exactly the
  empty keys off a 1024-block boundary and the keys that end at block 0 and begin in the last 1024
  blocks (`PrisonV1.ValidRangeIff`).
* `submit_io` rounds the end of a write up in 32 bits. The range stays in the block and covers
  the bytes exactly when that does not wrap (`Bufio.SubmitCoversIff`); `Bufio.SubmitWraps` is an
  input where it does.
* `isal_gen_syndrome` and `isal_xor_syndrome` write nothing beyond 32 data disks, although
  recovery handles 64 (`Raid6.GenSyndrome`, `Raid6.XorSyndrome`, `Raid6.TwoDataRecov`). They write
  nothing either when the table allocation fails, and do not say so: if one of the two calls of a
  partial-stripe write fails, parity is right exactly when what was not folded cancels
  (`Raid6.RmwStripe`).
* The comment that falling back to the in-tree recovery never corrupts (`isa-l/raid6_isal.c:187`)
  does not hold. The fallback runs only beyond 32 data disks, and there it computes with what the
  dead pages happened to hold: the disks come back exactly up to 32 data disks, up to 64 when both
  allocations succeed, and otherwise only if those pages already held the partial syndromes
  (`Raid6Fallback.TwoDataOrFallback`, `Raid6Fallback.DataPOrFallback`).
  `Raid6Fallback.WideRecoveryCorrupts` is an array of zeros, of any width from 65 to 255, that it
  corrupts.
* `drop_buffers` with nothing held empties the cache exactly when the client may sleep, or every
  buffer on the dirty list was idle and no read is still under way at the end
  (`Bufio.DropEmptiesIff`); `Bufio.DirtyBufferStays` is a client that keeps its buffer.

## Conventions

* A byte of GF(2^8) is a record of eight bits. A 32-byte multiplication table is taken as its
  coefficient, so a table block is a matrix of coefficients.
* Allocation outcomes, I/O statuses, hash functions and the instruction set are parameters.
* Buffers, cells, bios and work items are numbers; a client's buffers are a map from number to
  record. A freshly allocated buffer is blank, since every field is set before it is read. A bio
  may be detained or parked again once it has left; a work number names one quiesce.
* A wait for a state bit is the completion it waits for, inside the call that waits. Where a call
  drops the client lock, it is split into several steps that other steps may separate; in
  `drop_buffers` only completions do.
* Link order in a ring is a sequence that starts at the cursor.

## Model

| member | source | states |
|---|---|---|
| `Galois.MulAddRight` | isa-l/ec_base.c:208-212 | The product built from repeated doubling with 0x1d distributes over xor on the right |
| `Galois.MulAddLeft` | isa-l/ec_base.c:208-212 | and on the left |
| `Galois.MulAssoc` | isa-l/ec_base.c:82-95 | The product is associative |
| `Galois.MulComm` | isa-l/ec_base.c:82-95 | and commutative |
| `Galois.MulIsZero` | isa-l/ec_base.c:82-95 | A product is zero exactly when a factor is |
| `Galois.DoubleHalf` | isa-l/ec_base.c:210-212 | Doubling is a bijection on bytes |
| `Galois.LogPow` | isa-l/ec_base.h:125-166 | The log table is right for every power of 2: the powers repeat with period 255 and never vanish |
| `Galois.PowLog` | isa-l/ec_base.h:125-166 | Every nonzero byte is the power of 2 its table entry names |
| `Galois.PowPeriod` | isa-l/ec_base.h:125-166 | Two powers of 2 agree exactly when their exponents agree modulo 255: 2 has order 255 |
| `Galois.AntilogsLog` | isa-l/ec_base.h:168-238 | The literal antilog table undoes the literal log table: the entry at the log of a nonzero byte is that byte |
| `Galois.AntilogPow` | isa-l/ec_base.h:168-238 | So its entries are the powers of 2 through two full periods, and zero from 510 on |
| `Galois.TableMul` | isa-l/ec_base.c:82-95 | The branch-free lookup, with sentinel 511 and zero tail, is the product for every pair, zero operands included |
| `Galois.Inv` | isa-l/ec_base.c:98-108 | Every nonzero byte has a two-sided inverse; zero is given zero |
| `Galois.TableInv` | isa-l/ec_base.c:98-108 | The table lookup gives that inverse for every byte |
| `Cauchy.ParityByte` | isa-l/ec_base.c:145 | The byte the generator stores is the inverse of i xor j |
| `MatrixInverse.OpApply` | isa-l/ec_base.c:173-199 | A row operation on a matrix acts on its products as the same operation on vectors |
| `MatrixInverse.OpInjective` | isa-l/ec_base.c:173-199 | No row operation kills a nonzero vector |
| `MatrixInverse.TracksStep` | isa-l/ec_base.c:162-200 | Every row operation done to both arrays keeps output times original equal to input, for every vector |
| `MatrixInverse.TracksEnd` | isa-l/ec_base.c:162-201 | When the input has become the identity the output is a two-sided inverse and the original is nonsingular |
| `MatrixInverse.KernelVectorKilled` | isa-l/ec_base.c:164-171 | With i columns cleared and no pivot in column i, an explicit nonzero vector is killed |
| `MatrixInverse.NoPivot` | isa-l/ec_base.c:164-171 | So the original matrix kills a nonzero vector too and is singular |
| `MatrixInverse.SwapRows` | isa-l/ec_base.c:173-181 | The element loop swaps exactly rows i and j of the flat array; nothing past the matrix changes |
| `MatrixInverse.ScaleRow` | isa-l/ec_base.c:184-188 | The element loop scales exactly row i |
| `MatrixInverse.AddMulRow` | isa-l/ec_base.c:194-198 | The element loop adds a multiple of row i to exactly row j |
| `MatrixInverse.SetIdentity` | isa-l/ec_base.c:154-159 | The output array starts as the identity |
| `MatrixInverse.FindRow` | isa-l/ec_base.c:166-168 | The first row below i with a nonzero entry in column i, or n when there is none |
| `MatrixInverse.FindPivot` | isa-l/ec_base.c:163-182 | A zero pivot is repaired by a swap, or the original matrix is singular |
| `MatrixInverse.ScaleToOne` | isa-l/ec_base.c:184-188 | The pivot becomes one and both arrays still track the original |
| `MatrixInverse.ClearColumn` | isa-l/ec_base.c:190-199 | One more column is cleared and both arrays still track the original |
| `MatrixInverse.InvertMatrix` | isa-l/ec_base.c:149-202 | For every n and matrix: 0 exactly when nonsingular; then the output is the inverse on both sides and the input has become the identity; on -1 a nonzero vector is killed by the original |
| `Cauchy.Elimination` | isa-l/ec_base.c:141-145 | The identity that removes one column from two Cauchy equations |
| `Cauchy.CauchyKernel` | isa-l/ec_base.c:141-145 | A vector supported on no more columns than there are parity rows that kill it is zero |
| `Cauchy.AnyRowsNonsingular` | isa-l/ec_base.c:131-146 | For k < m <= 256, any k distinct rows of the generator form a nonsingular matrix |
| `Cauchy.GenIdentity` | isa-l/ec_base.c:136-139 | The top k rows become the identity |
| `Cauchy.GenParityRow` | isa-l/ec_base.c:141-145 | A parity row holds 1/(i xor j), and no other row changes |
| `Cauchy.GenCauchy` | isa-l/ec_base.c:131-146 | The array holds the generator rows, identity on top, and is untouched past them |
| `Cauchy.InvertSurvivors` | isa-l/ec_base.c:149-202 | Inversion accepts any k surviving rows, and the inverse undoes their coding for every data vector |
| `Cauchy.DecodeReturnsData` | isa-l/ec_base.c:370-408 | For any m-k erasures, coding the surviving regions with the inverse returns the original data byte for byte |
| `Cauchy.EncodedFragments` | isa-l/ec_base.c:370-408 | Data regions and coded parity regions together are the generator rows applied to the data |
| `Cauchy.EncodeAndDecode` | isa-l/ec_base.c:131-202 | The whole round trip on buffers: generate the matrix, encode the parity, keep any k of the m fragments, invert their rows, encode again, and the data is back byte for byte |
| `ErasureCode.EncodedUnique` | isa-l/ec_base.c:370-408 | The common specification of all encoders fixes every byte, so encoders that meet it agree |
| `ErasureCode.BuildMulTbl` | isa-l/ec_base.c:61-66 | The 256-entry table holds the products of its coefficient |
| `ErasureCode.SumAt` | isa-l/ec_base.c:380-383 | The scalar loop is the xor sum of coefficient times source byte |
| `ErasureCode.EncodeRowScalar` | isa-l/ec_base.c:377-387 | Short regions: one row coded, nothing past len written |
| `ErasureCode.FirstSource` | isa-l/ec_base.c:397-399 | The first source initialises the row from its product table |
| `ErasureCode.AddSource` | isa-l/ec_base.c:401-406 | Each further source is xored in |
| `ErasureCode.EncodeRowTable` | isa-l/ec_base.c:389-407 | Long regions: the table path codes the row to the same specification |
| `ErasureCode.EncodeBase` | isa-l/ec_base.c:370-408 | The portable encoder codes every row, for every length, and leaves the sources alone |
| `ErasureCode.Accumulate` | isa-l/gf_2vect_dot_prod_avx2_gfni.c:51-74 | The accumulators hold the sum of products of a block, padding included |
| `ErasureCode.StoreBlock` | isa-l/gf_2vect_dot_prod_avx2_gfni.c:75-80 | A block store writes its bytes and no others |
| `ErasureCode.DotBlock` | isa-l/gf_2vect_dot_prod_avx2_gfni.c:50-81 | One block step extends the coded prefix of every row by its width |
| `ErasureCode.DotProdAvx2` | isa-l/gf_2vect_dot_prod_avx2_gfni.c:42-153 | Blocks of 96, 64, 32 and a staged tail together code every byte below len and write nothing past it, for any number of rows |
| `ErasureCode.DotProdAvx512` | isa-l/gf_2vect_dot_prod_avx512_gfni.c:67-106 | So do blocks of 64 and a masked tail |
| `ErasureCode.DispatchGroup` | isa-l/gfni_glue.c:142-147 | A kernel call on the next group codes exactly those rows |
| `ErasureCode.EncodeAvx2` | isa-l/gfni_glue.c:138-160 | Peeling rows in threes, then two or one, codes every row |
| `ErasureCode.EncodeAvx512` | isa-l/gfni_glue.c:169-200 | Peeling rows in sixes, then five to one, codes every row |
| `ErasureCode.MadBase` | isa-l/ec_base.c:349-367 | Both length branches xor coefficient times source into the destination below len |
| `ErasureCode.MadBlock` | isa-l/gf_2vect_mad_avx2_gfni.c:56-81 | One block of the multiply-accumulate kernels, staged tail included |
| `ErasureCode.MadAvx2` | isa-l/gf_2vect_mad_avx2_gfni.c:45-142 | Blocks of 96, 64, 32 and a tail update every byte below len once |
| `ErasureCode.MadAvx512` | isa-l/gf_2vect_mad_avx512_gfni.c:44-77 | So do blocks of 64 and a masked tail |
| `ErasureCode.UpdateBase` | isa-l/ec_base.c:411-435 | Every row is updated with its own coefficient of the source |
| `ErasureCode.UpdateGfni` | isa-l/gfni_glue.c:218-256 | Pairs of rows and an odd last one do the same on either instruction set |
| `ErasureCode.UpdateIsReencode` | isa-l/ec_base.c:411-435 | Updating with old xor new gives exactly the full encoding of the new sources, for any coefficients |
| `Raid6.AlphaPow` | isa-l/raid6_isal.c:67-74 | The loop computes the power of 2 |
| `Raid6.BuildParity` | isa-l/raid6_isal.c:96-99 | The coefficient rows are all ones and the powers of 2 |
| `Raid6.GenSyndrome` | isa-l/raid6_isal.c:76-114 | P and Q hold their sums for every width 1 to 32 and length; otherwise nothing is written |
| `Raid6.XorSyndrome` | isa-l/raid6_isal.c:124-172 | Exactly the window start..stop is folded into P and Q; a bad window or width changes nothing |
| `Raid6.RmwKeepsParity` | isa-l/raid6_isal.c:116-172 | Folding a window with the old data and then the new turns the syndrome of the old stripe into that of the new |
| `Raid6.RunKeepsParity` | isa-l/raid6_isal.c:116-172 | Over any sequence of such writes P and Q stay the syndrome of the current stripe |
| `Raid6.RmwStripe` | isa-l/raid6_isal.c:116-172 | A partial-stripe write on buffers: two calls of the routine, with the new data put in between. If both do their work P and Q are the syndromes of the new stripe; either may silently do nothing, and then they are exactly when what was not folded out or in cancels at every byte |
| `Raid6.RmwIff` | isa-l/raid6_isal.c:116-172 | The same of the two folds as functions, done or not done |
| `Raid6.SurvivorsNonsingular` | isa-l/raid6_isal.c:367-370 | For both loss modes and every width up to 255 the survivor matrix is nonsingular, so the singular exit is dead |
| `Raid6.FillSurvivors` | isa-l/raid6_isal.c:257-270 | The flat matrix rows are the surviving disks in canonical order, then P, then Q |
| `Raid6.BuildSrcs` | isa-l/raid6_isal.c:228-242 | The source pointers follow the same canonical order as the matrix rows |
| `Raid6.FoldRow` | isa-l/raid6_isal.c:286-295 | The double loop is the lost row times the inverse |
| `Raid6.BuildTbls` | isa-l/raid6_isal.c:249-298 | Success exactly when nonsingular, and then the tables are the lost rows times the inverse |
| `Raid6.BuiltUnique` | isa-l/raid6_isal.c:249-298 | Tables for one failure pattern are unique, so a cached entry equals a fresh build |
| `Raid6.BuiltDecodes` | isa-l/raid6_isal.c:249-298 | Such tables applied to the survivors give the lost symbols |
| `Raid6.DecodedByte` | isa-l/raid6_isal.c:372-393 | Byte by byte, the dot product over the survivors is the lost disks' content |
| `Raid6.CpuCache.constructor` | isa-l/raid6_isal.c:215-221 | The cache starts without a valid entry |
| `Raid6.CpuCache.Refresh` | isa-l/raid6_isal.c:318-333 | A valid entry always holds the tables of its own key, through hits, rebuilds and failures |
| `Raid6.CpuCache.Recover` | isa-l/raid6_isal.c:305-344 | The cached path restores both lost disks for widths to 32, whatever the entry held before, or changes nothing |
| `Raid6.RecovFinish` | isa-l/raid6_isal.c:352-399 | The plain path restores both lost disks exactly when memory was found and the matrix is nonsingular; each failure has its code and changes nothing |
| `Raid6.TwoDataRecov` | isa-l/raid6_isal.c:402-451 | For 2 to 64 data disks and any two lost ones both come back byte for byte, no survivor or byte past the region changes; otherwise nothing is written |
| `Raid6.DataPRecov` | isa-l/raid6_isal.c:454-499 | For 1 to 64 data disks, a lost data disk and P come back from the rest and Q |
| `Raid6Fallback.Solve` | raid6/recov.c:46-59 | A multiplier that undoes the sum of the two coefficients, and its product with the first, solve the P and Q equations: any error in the partial syndromes comes out multiplied |
| `Raid6Fallback.Multipliers` | raid6/recov.c:46-49 | The two table multipliers are such a pair |
| `Raid6Fallback.BytesIff` | raid6/recov.c:51-59 | Both bytes come out right exactly when the partial syndromes used are the right ones |
| `Raid6Fallback.TwoBytesIff` | raid6/recov.c:46-59 | The same for the bytes of a stripe of up to 255 data disks, with the table multipliers |
| `Raid6Fallback.GenPartial` | raid6/recov.c:31-40 | With the zero page in both lost slots the dead pages receive the partial syndromes, if the installed routine writes at all |
| `Raid6Fallback.FixTwo` | raid6/recov.c:51-59 | The byte loop, on four buffers |
| `Raid6Fallback.TwoDataIntx1` | raid6/recov.c:18-60 | Both disks are restored exactly when the syndrome routine did its work or the dead pages happened to hold the partial syndromes |
| `Raid6Fallback.TwoDataOrFallback` | isa-l/raid6_isal.c:402-451 | With the fallback included: both disks come back exactly up to 32 data disks, up to 64 when both allocations succeed, and otherwise only if the dead pages held the partial syndromes; bytes past the region are untouched |
| `Raid6Fallback.ByteIff` | raid6/recov.c:88-92 | One data byte and the P byte come out right exactly when the partial syndromes are |
| `Raid6Fallback.FixOne` | raid6/recov.c:88-92 | The byte loop, on three buffers |
| `Raid6Fallback.DataPIntx1` | raid6/recov.c:63-93 | The data disk and P are restored exactly when the syndrome routine did its work or both pages happened to hold the partial syndromes |
| `Raid6Fallback.DataPOrFallback` | isa-l/raid6_isal.c:454-499 | With the fallback included, the same three cases, and nothing past the region |
| `Raid6Fallback.StaleByte` | isa-l/raid6_isal.c:183-188 | In an array of zeros any nonzero byte in the dead page is such a wrong input |
| `Raid6Fallback.WideRecoveryCorrupts` | isa-l/raid6_isal.c:402-451 | Run on such an array of any width from 65 to 255 data disks, recovery brings back at least one wrong byte, whatever the allocations do |
| `DeferredSet.DmDeferredSet.constructor` | md/dm-bio-prison-v1.c:334-353 | All counts zero, no work, sweeper and current together |
| `DeferredSet.DmDeferredSet.EntryInc` | md/dm-bio-prison-v1.c:362-373 | The current slot counts one more entry |
| `DeferredSet.DmDeferredSet.DoSweep` | md/dm-bio-prison-v1.c:381-391 | The loop is the recursive sweep: work of passed slots in order, then the current slot if idle |
| `DeferredSet.DmDeferredSet.EntryDec` | md/dm-bio-prison-v1.c:393-402 | A drop and then a sweep |
| `DeferredSet.DmDeferredSet.SetAddWork` | md/dm-bio-prison-v1.c:408-426 | 0 only if idle; otherwise the work joins the current slot, which moves on if the next is free, so that later entries do not hold it back |
| `DeferredSet.SweepLoopKeeps` | md/dm-bio-prison-v1.c:381-391 | The sweep stops at the first busy slot, loses no work, and hands out only work none of whose entries is outstanding |
| `DeferredSet.InvRun` | md/dm-bio-prison-v1.c:362-426 | The window invariant holds in every run, in which an item may be added again once it has been released |
| `DeferredSet.GracePeriod` | md/dm-bio-prison-v1.c:362-426 | In every run no entry that a release had to wait for is still outstanding, so all entries taken before its work was added had been dropped |
| `DeferredSet.ImmediateIffNoneOutstanding` | md/dm-bio-prison-v1.c:408-426 | add_work returns 0 exactly when no entry is outstanding anywhere |
| `DeferredSet.Conservation` | md/dm-bio-prison-v1.c:376-426 | Every deferral is pending, once, or has been released, once; with nothing outstanding nothing is pending |
| `DeferredSet.OutsideWindow` | md/dm-bio-prison-v1.c:376-426 | Slots outside sweeper..current are empty, so current never laps the sweeper |
| `DeferredSet.NothingLeft` | md/dm-bio-prison-v1.c:393-402 | Once all entries are dropped no slot holds work |
| `DeferredSet.StillWaiting` | md/dm-bio-prison-v1.c:381-391 | Pending work always has an outstanding entry at or before its slot |
| `DeferredSet.Prompt` | md/dm-bio-prison-v1.c:408-426 | In every run an item that found the slot after current free is held back only by entries taken before it: while it waits, one of those is outstanding |
| `DeferredSet.PromptRun` | md/dm-bio-prison-v1.c:376-426 | Two entries with work added in between: the work comes out with the first entry, although the second is still out |
| `DeferredSet.CrowdedIff` | md/dm-bio-prison-v1.c:418-424 | The slot after current is in use exactly when all 64 slots are in the window |
| `DeferredSet.CrowdedHeldBack` | md/dm-bio-prison-v1.c:418-424 | Whenever an item finds it in use, a run goes on from there in which only later entries hold it back |
| `DeferredSet.QueueStep` | md/dm-bio-prison-v1.c:376-426 | The ring is a queue: an addition joins at one end, unless it need not wait, and a drop hands out the other end, the latest first, in front of what the caller had |
| `CellTree.CmpIsOverlap` | md/dm-bio-prison-v1.c:96-118 | For nonempty ranges the comparison is 0 exactly on overlap within one device space, and antisymmetric |
| `CellTree.CmpTransitive` | md/dm-bio-prison-v1.c:96-118 | and transitive through a nonempty key |
| `CellTree.FindOverlap` | md/dm-bio-prison-v1.c:145-164 | The walk finds a cell exactly when one overlaps the key, and what it finds overlaps |
| `CellTree.InsertKeeps` | md/dm-bio-prison-v1.c:145-172 | Linking where the walk ends keeps the order and adds just that cell |
| `CellTree.EraseKeeps` | md/dm-bio-prison-v1.c:213-224 | Erasing removes just that cell and keeps the order |
| `CellTree.EntriesDisjoint` | md/dm-bio-prison-v1.c:96-118 | Cells of an ordered tree are pairwise disjoint |
| `CellTree.RotationInvisible` | md/dm-bio-prison-v1.c:169-170 | Rebalancing rotations change neither the order nor the entries |
| `CellTree.TopmostMet` | md/dm-bio-prison-v2.c:115-148 | Of several overlapping cells the walk meets the one that lies above the others |
| `CellTree.MetTopmost` | md/dm-bio-prison-v2.c:115-148 | and what it meets is that one |
| `PrisonV1.ValidRangeMeans` | md/dm-bio-prison-v1.c:126-135 | On nonempty keys the range test accepts exactly those inside one stretch of 1024 blocks |
| `PrisonV1.ValidRangeIff` | md/dm-bio-prison-v1.c:126-135 | For all 64-bit keys: it accepts exactly these, the empty keys off a 1024 boundary, and the keys that end at 0 and begin in the last 1024 blocks |
| `PrisonV1.EmptyRangeAccepted` | md/dm-bio-prison-v1.c:126-135 | The empty keys it accepts are exactly those off a 1024 boundary |
| `PrisonV1.SameRegion` | md/dm-bio-prison-v1.c:120-124 | Overlapping keys in valid ranges reach the same region, for any hash |
| `PrisonV1.FindFlat` | md/dm-bio-prison-v1.c:138-189 | Searching one region decides for the whole prison |
| `PrisonV1.DetainRefines` | md/dm-bio-prison-v1.c:138-189 | Detaining in the sharded trees is detaining in one flat set of cells: joined exactly when some live cell overlaps |
| `PrisonV1.LiveDisjoint` | md/dm-bio-prison-v1.c:138-189 | Live cells are pairwise disjoint |
| `PrisonV1.FirstCome` | md/dm-bio-prison-v1.c:291-314 | In every run a promotion passes the cell to the inmate that came first, the rest stay, and the answer is 1 exactly when there is none and the cell goes |
| `PrisonV1.ReleasedInOrder` | md/dm-bio-prison-v1.c:213-259 | In every run a released cell is gone and exactly its bios come out, in the order in which they came |
| `PrisonV1.InvRun` | md/dm-bio-prison-v1.c:138-314 | In every run each detained bio is holder or inmate of exactly one live cell, once, and every earlier detention of any bio has ended in one departure; a bio may come again |
| `PrisonV1.HoldersApart` | md/dm-bio-prison-v1.c:138-314 | In every run on whose keys overlap is transitive, bios in different cells asked for nothing in common |
| `PrisonV1.HoldersMeet` | md/dm-bio-prison-v1.c:291-314 | Whenever it is not, for any three such keys: a bio with the middle key waits in the cell of the first, is promoted to its holder, and a bio with the third holds a cell beside it |
| `PrisonV1.NeverClashIff` | md/dm-bio-prison-v1.c:138-314 | So mutual exclusion of what the holders asked for holds in every run on a set of keys exactly when overlap is transitive on the set |
| `PrisonV1.DmBioPrison.constructor` | md/dm-bio-prison-v1.c:40-64 | An empty prison |
| `PrisonV1.DmBioPrison.BioDetain` | md/dm-bio-prison-v1.c:138-189 | The tree walk and link meet the flat specification |
| `PrisonV1.DmBioPrison.CellRelease` | md/dm-bio-prison-v1.c:213-259 | The cell goes and its bios come out, holder first when asked for |
| `PrisonV1.DmBioPrison.CellPromoteOrRelease` | md/dm-bio-prison-v1.c:291-314 | The next inmate takes over, or the cell goes when there is none |
| `PrisonV2.WalkFinds` | md/dm-bio-prison-v2.c:115-148 | The walk finds nothing exactly when no live cell overlaps |
| `PrisonV2.InvRun` | md/dm-bio-prison-v2.c:115-346 | Holders, parked bios and continuations agree with the cells in every run, and every earlier parking of a bio has ended in one return |
| `PrisonV2.LiveIffHeld` | md/dm-bio-prison-v2.c:115-333 | In every run a cell is in the tree exactly when it has a shared or exclusive holder; without an exclusive one it parks nothing |
| `PrisonV2.ContinuationPlaces` | md/dm-bio-prison-v2.c:190-290 | In every run, early unlocks included, a continuation waits in a live cell with sharers left, or is in the queue, once, or is lost |
| `PrisonV2.WaitingStep` | md/dm-bio-prison-v2.c:190-290 | One step: only the last put of its cell or another quiesce of it ends the waiting |
| `PrisonV2.ContinuationFate` | md/dm-bio-prison-v2.c:190-333 | Over every run a waiting continuation is queued exactly when the last share of its cell goes while the cell is exclusively held, by whomever; it is lost if it goes otherwise or the cell is quiesced again first |
| `PrisonV2.ContinuationKept` | md/dm-bio-prison-v2.c:190-333 | In every run with one quiesce per lock and no early unlock none is lost: it is queued, or waits under the lock with sharers left |
| `PrisonV2.UnlockThenPut` | md/dm-bio-prison-v2.c:318-333 | A run in which an early unlock loses the continuation |
| `PrisonV2.RelockQueuesStale` | md/dm-bio-prison-v2.c:202-206 | A run in which the block is locked again before the share goes: the continuation of the lock given up is queued under the new one |
| `PrisonV2.DrainQueues` | md/dm-bio-prison-v2.c:190-210 | With the lock kept, the last put queues the continuation, and no earlier one does |
| `PrisonV2.DrainAfterUnlock` | md/dm-bio-prison-v2.c:318-333 | After an early unlock, puts alone never queue it, however many sharers there are |
| `PrisonV2.ExactIff` | md/dm-bio-prison-v2.c:115-148 | What the walk says of one cell is true of all overlapping ones, in every search tree of these cells, exactly when they agree |
| `PrisonV2.RootHides` | md/dm-bio-prison-v2.c:115-148 | With a cell that does not bar the key at the root of the tree, an overlapping one that does is never met |
| `PrisonV2.ExactHere` | md/dm-bio-prison-v2.c:115-148 | and in the tree at hand exactly when the topmost of them answers for the rest |
| `PrisonV2.GrantExact` | md/dm-bio-prison-v2.c:150-171 | If the cells a key overlaps agree on letting it in, a share is granted exactly when none of them excludes the level; this is about the keys of the cells |
| `PrisonV2.GrantExactIff` | md/dm-bio-prison-v2.c:150-171 | Over all search trees of the same cells, that agreement is exactly what is needed |
| `PrisonV2.GrantExactHere` | md/dm-bio-prison-v2.c:150-171 | In the tree at hand a grant is exact exactly when nothing excludes the level or the topmost overlapping cell does |
| `PrisonV2.BusyExactIff` | md/dm-bio-prison-v2.c:226-252 | The same for -EBUSY: exact for every shape exactly when the overlapping cells are all exclusively held or none is |
| `PrisonV2.BusyExactHere` | md/dm-bio-prison-v2.c:226-252 | and in the tree at hand exactly when none is or the topmost is |
| `PrisonV2.SplitReached` | md/dm-bio-prison-v2.c:115-252 | Two calls reach a state with one block shared and its neighbour locked |
| `PrisonV2.SlipsPast` | md/dm-bio-prison-v2.c:150-252 | In that state a request for both blocks gets a share at level 0 past the lock at level 5, and also a second exclusive lock |
| `PrisonV2.DmBioPrisonV2.constructor` | md/dm-bio-prison-v2.c:37-57 | An empty prison |
| `PrisonV2.DmBioPrisonV2.Walk` | md/dm-bio-prison-v2.c:115-148 | The descent loop finds what the recursive search finds |
| `PrisonV2.DmBioPrisonV2.CellGet` | md/dm-bio-prison-v2.c:150-187 | A share is granted, or the bio parked under an excluding lock |
| `PrisonV2.DmBioPrisonV2.CellPut` | md/dm-bio-prison-v2.c:190-223 | A share goes; the last one queues a continuation or frees the cell |
| `PrisonV2.DmBioPrisonV2.CellLock` | md/dm-bio-prison-v2.c:226-270 | -EBUSY if the cell found is exclusively held, else it is locked at the level, with 1 exactly when sharers must drain |
| `PrisonV2.DmBioPrisonV2.CellQuiesce` | md/dm-bio-prison-v2.c:273-290 | The continuation is queued at once, or left for the last put |
| `PrisonV2.DmBioPrisonV2.CellLockPromote` | md/dm-bio-prison-v2.c:293-315 | -EINVAL without the lock, else the level is replaced, with 1 exactly when sharers remain |
| `PrisonV2.DmBioPrisonV2.CellUnlock` | md/dm-bio-prison-v2.c:318-346 | Parked bios come out and the cell goes unless shared |
| `PrisonSafety.ShutOutMeans` | md/dm-bio-prison-v2.c:150-171 | The blocks of a key are all shut to a level exactly when no request for one of them, at the level or below, is granted |
| `PrisonSafety.LockShutsIff` | md/dm-bio-prison-v2.c:226-262 | A granted lock shuts its level out of every block asked for exactly when no live cell overlapped the key, or each block lies in the topmost overlapping cell or was shut already |
| `PrisonSafety.HeldShutsIff` | md/dm-bio-prison-v2.c:226-315 | In every run, of a held lock: exactly when each block asked for that its cell does not cover is shut by another cell |
| `PrisonSafety.RequestsKnown` | md/dm-bio-prison-v2.c:115-346 | In every run each share and each lock overlaps the cell it joined, and the cell has the level last asked for |
| `PrisonSafety.ZeroIff` | md/dm-bio-prison-v2.c:226-262 | In every run an answer of 0 means that no share is out on the key exactly when every share on it joined the cell that the lock meets |
| `PrisonSafety.QueuedIff` | md/dm-bio-prison-v2.c:190-290 | In every run, when a continuation is queued no share is out on what its lock was asked for exactly when every such share was one of the cell it locked |
| `PrisonSafety.ToldMeans` | md/dm-bio-prison-v2.c:150-333 | In every run, once the owner has been told that the sharers are gone, its cell has only shares above its level |
| `PrisonSafety.SafeRun` | md/dm-bio-prison-v2.c:115-346 | In every run on whose requests overlap is transitive: no two locks were asked for on overlapping keys, and an owner told that the sharers are gone has only shares above its level on any block asked for; if requests are equal or disjoint the lock also shuts out every block |
| `PrisonSafety.SafeAnswers` | md/dm-bio-prison-v2.c:150-262 | In such a run every answer is right about the requests: a share is granted exactly when no lock on an overlapping request excludes its level, -EBUSY is returned exactly when such a lock is held, and otherwise 1 exactly when a share on an overlapping request is out |
| `PrisonSafety.SafeQueue` | md/dm-bio-prison-v2.c:190-290 | and a continuation is queued only when no share is out on what its lock was asked for |
| `PrisonSafety.PromotionAnswer` | md/dm-bio-prison-v2.c:293-315 | In every run a promotion is refused with -22 exactly without the lock; with it the answer is 1 exactly if the cell has sharers, and 0 if not |
| `PrisonSafety.SafePromotion` | md/dm-bio-prison-v2.c:293-315 | On requests on which overlap is transitive it is 0 exactly when no share on a request that overlaps the one of the lock is out |
| `PrisonSafety.FreedIffGone` | md/dm-bio-prison-v2.c:190-223 | In every run a put or an unlock hands the cell back to be freed exactly when its last holder has let go and it is live no more |
| `PrisonSafety.QueueGrows` | md/dm-bio-prison-v2.c:190-290 | Work is queued behind what is queued already |
| `PrisonSafety.UnlockedInOrder` | md/dm-bio-prison-v2.c:318-346 | In every run an unlock hands out exactly the bios parked in its cell, in the order in which they were parked |
| `PrisonSafety.RightAlwaysIff` | md/dm-bio-prison-v2.c:115-315 | All answers, to requests for shares and locks and to promotions, are right in every run on a set of keys exactly when overlap is transitive on the set |
| `PrisonSafety.WideLockMissesBlock` | md/dm-bio-prison-v2.c:115-262 | Whenever it is not, for any three such keys: after a share of the first, a lock on the middle one leaves the third to other shares and locks |
| `PrisonSafety.WideShareUnseen` | md/dm-bio-prison-v2.c:115-262 | and after a share of the middle one a lock on the third is told that nothing needs quiescing |
| `PrisonSafety.WideLockNotDrained` | md/dm-bio-prison-v2.c:115-290 | A run in which the continuation of a lock on two blocks is queued while one of them is still shared, and is granted again |
| `CellTree.SingleBlocks` | md/dm-cache-target.c:575-587 | Requests for single blocks, as the cache target makes them, are equal or disjoint, and overlap is transitive on them |
| `Lru.LruList.constructor` | md/dm-bufio.c:101-106 | An empty list |
| `Lru.LruList.LruInsert` | md/dm-bufio.c:117-132 | The entry goes in just before the cursor and the count follows |
| `Lru.LruList.LruReference` | md/dm-bufio.c:238-241 | The reference bit is set |
| `Lru.LruList.LruRemove` | md/dm-bufio.c:196-233 | The entry goes, the cursor moves off it and every iterator is moved off it |
| `Lru.LruList.IterBegin` | md/dm-bufio.c:147-153 | An iterator starts at the cursor and stops before it |
| `Lru.LruList.IterNext` | md/dm-bufio.c:171-190 | Entries are tested in ring order from where the iterator stood; a hit is the first that passes, and at the end all owed entries were tested |
| `Lru.LruList.IterEnd` | md/dm-bufio.c:158-161 | The iterator is deregistered |
| `Lru.LruList.LruEvict` | md/dm-bufio.c:257-303 | The loop is the two-lap search of the specification, in at most twice count rounds |
| `Lru.InsertIter` | md/dm-bufio.c:117-132 | Insertion leaves every iterator sound |
| `Lru.RemoveIter` | md/dm-bufio.c:196-233 | Removing any entry leaves every iterator on the ring and owing what it owed but for that entry |
| `Lru.AdvanceIter` | md/dm-bufio.c:171-190 | A test pays off one entry |
| `Lru.InvRun` | md/dm-bufio.c:117-303 | Iterators are sound in every run of insertions, removals, evictions and tests |
| `Lru.IteratorNeverMisses` | md/dm-bufio.c:147-233 | In every run iterator pointers are null or on the ring, and an iterator at its end has tested every entry that stayed since it began |
| `Lru.EvictTakesOut` | md/dm-bufio.c:257-303 | An evicted entry was on the ring and passed; nothing else leaves |
| `Lru.EvictFinds` | md/dm-bufio.c:257-303 | If every entry may go, one goes unless the ring is empty |
| `Lru.EvictRefs` | md/dm-bufio.c:257-303 | Bits are only cleared; an empty-handed search without a stop clears all and refused every unreferenced entry |
| `Lru.SecondChance` | md/dm-bufio.c:257-303 | While some unreferenced entry may go no referenced one does, and all entries met before the one that goes were referenced or refused |
| `Lru.TakesUp` | md/dm-bufio.c:275-282 | The next search takes up behind the entry that went: what was passed over, its reference gone, comes last |
| `Lru.FreshLast` | md/dm-bufio.c:117-134 | A fresh entry is the last that a search meets: it goes only if every other is referenced or refused |
| `Lru.FreshFound` | md/dm-bufio.c:119-123 | A fresh entry that may go is never missed |
| `Lru.FirstLapKeepsFirst` | md/dm-bufio.c:264-303 | An eviction on the first lap brings no referenced entry further back than the number of referenced entries |
| `Lru.ExhaustedMeans` | md/dm-bufio.c:264-303 | What an exhausted search has established, entry by entry |
| `Lru.ExhaustedTwice` | md/dm-bufio.c:264-303 | Two exhausted searches in a row: no entry passes |
| `Lru.ExhaustedConclusiveIff` | md/dm-bufio.c:264-268 | One exhausted search is conclusive for every predicate exactly when the referenced entries come first, which the comment on two laps overlooks |
| `Lru.MissedEntry` | md/dm-bufio.c:264-268 | A two-entry ring where one search comes back empty although an entry could go |
| `BufferCache.LookupIsPlainMap` | md/dm-bufio.c:589-625 | Lookup is a plain map from block to the listed buffer with that block, and no buffer is on both lists |
| `BufferCache.BlocksUnique` | md/dm-bufio.c:826-863 | Cached block numbers are unique |
| `BufferCache.InsertAgrees` | md/dm-bufio.c:826-863 | Insertion succeeds exactly when the block is not cached, and trees and lists still agree |
| `BufferCache.UnlinkAgrees` | md/dm-bufio.c:873-890 | Removal takes the buffer off tree and list and nothing else |
| `BufferCache.MarkAgrees` | md/dm-bufio.c:714-723 | A marked buffer is on the list it names |
| `BufferCache.EvictAgrees` | md/dm-bufio.c:664-707 | An evicted buffer was unheld and passed, and left both tree and list |
| `BufferCache.MoveAgrees` | md/dm-bufio.c:731-747 | One round of mark_many moves one unheld match |
| `BufferCache.MoveAllMoves` | md/dm-bufio.c:731-757 | mark_many moves only unheld matches and changes nothing else of any buffer |
| `BufferCache.MoveAllLeaves` | md/dm-bufio.c:731-757 | A match it leaves behind was referenced to begin with, and no reference bit is left |
| `BufferCache.MoveAllCompleteIff` | md/dm-bufio.c:731-757 | mark_many leaves no match behind, whatever it is asked for, exactly when the unheld referenced buffers come first on the ring |
| `BufferCache.MoveAllLeavesNone` | md/dm-bufio.c:731-757 | The sufficient half, through all rounds |
| `BufferCache.MoveAllMisses` | md/dm-bufio.c:731-757 | The necessary half: an unheld referenced buffer further back is missed by the predicate that wants it alone |
| `BufferCache.CleanedLeftBehind` | md/dm-bufio.c:731-757 | A dirty list of two on which the cleaned one stays |
| `BufferCache.MoveAllEmpties` | md/dm-bufio.c:731-757 | If every buffer of the list is unheld and wanted, none stays |
| `BufferCache.HitReferences` | md/dm-bufio.c:612-625 | A hit references the buffer and costs no other its reference |
| `BufferCache.HitOutlives` | md/dm-bufio.c:664-690 | A buffer hit since the last search came by is not taken while an unheld, acceptable one that was not is on the list |
| `BlockTree.Search` | md/dm-bufio.c:589-604 | The walk finds the buffer of a block exactly when the tree holds it |
| `BlockTree.FindNext` | md/dm-bufio.c:896-917 | The walk that keeps the best candidate so far ends with the least block at or after the given one, or none exactly when there is none |
| `BlockTree.InsertKeeps` | md/dm-bufio.c:826-846 | Linking where the walk ends keeps the order and adds just that block |
| `BlockTree.EraseKeeps` | md/dm-bufio.c:873-890 | Erasing takes just that block out and keeps the order |
| `BufferCache.DmBufferCache.constructor` | md/dm-bufio.c:535-552 | An empty cache agrees |
| `BufferCache.DmBufferCache.Insert` | md/dm-bufio.c:848-863 | Tree and list take the buffer, or neither does |
| `BufferCache.DmBufferCache.Get` | md/dm-bufio.c:612-625 | A hit takes a hold and a reference |
| `BufferCache.DmBufferCache.Put` | md/dm-bufio.c:633-643 | A hold goes; true when it was the last |
| `BufferCache.DmBufferCache.Remove` | md/dm-bufio.c:873-890 | Only the sole holder removes; otherwise nothing changes |
| `BufferCache.DmBufferCache.Mark` | md/dm-bufio.c:714-723 | The buffer is on the named list |
| `BufferCache.DmBufferCache.EvictOne` | md/dm-bufio.c:677-707 | The evicted buffer is in no tree and no list |
| `BufferCache.DmBufferCache.MarkMany` | md/dm-bufio.c:731-757 | The loop is the repeated round, until one finds nothing |
| `BufferCache.DmBufferCache.RemoveRangeIn` | md/dm-bufio.c:919-944 | The blocks of one tree from begin to end, in ascending order |
| `BufferCache.DmBufferCache.RemoveRange` | md/dm-bufio.c:946-958 | For a cache that may sleep: exactly the cached, unheld, matching buffers of the range go, each handed over once; trees and lists agree |
| `Bufio.SubmitCoversIff` | md/dm-bufio.c:1382-1398 | A submitted write stays within the block and covers its bytes exactly when rounding the end up does not wrap in 32 bits, and then takes in less than 4 KiB more at either end |
| `Bufio.SubmitWraps` | md/dm-bufio.c:1382-1398 | At the largest block sizes it does wrap, and the write misses its bytes |
| `Bufio.CaptureCovers` | md/dm-bufio.c:1446-1462 | Capturing a write takes every range marked since the one before, to the block it was marked for |
| `Bufio.WriteDirtyKeeps` | md/dm-bufio.c:1446-1462 | Starting a write, after waiting for an earlier one, keeps the client sane |
| `Bufio.MakeCleanKeeps` | md/dm-bufio.c:1484-1495 | A buffer off the lists comes out neither dirty nor under I/O |
| `Bufio.TakeOutKeeps` | md/dm-bufio.c:1531-1552 | An evicted, cleaned buffer was unheld and matched, and is in one hand only |
| `Bufio.FreeKeeps` | md/dm-bufio.c:1663-1681 | Freeing fills the reserve first and keeps the client sane |
| `Bufio.AllocKeeps` | md/dm-bufio.c:1594-1645 | Each source of a buffer, allocator, reserve or eviction, keeps the client sane |
| `Bufio.EnterKeeps` | md/dm-bufio.c:1758-1829 | Entering a buffer, or giving it up because the block got cached meanwhile, keeps the client sane |
| `Bufio.MarkDirtyKeeps` | md/dm-bufio.c:2063-2087 | Marking keeps the client sane: the range grows to take in the new one and the buffer is on the dirty list |
| `Bufio.SettledKeeps` | md/dm-bufio.c:2141-2162 | A written buffer goes to the clean list only if neither dirty nor being written |
| `Bufio.ForgetAllKeeps` | md/dm-bufio.c:2258-2268 | Forgetting a range keeps the client sane |
| `Bufio.SaneRun` | md/dm-bufio.c:1371-2378 | All of the following hold in every state of every run |
| `Bufio.BitsInEveryRun` | md/dm-bufio.c:962-977 | In every run trees and lists agree, clean-list buffers are neither dirty nor being written, dirty-list buffers are not being read, and no buffer was freed dirty or under I/O |
| `Bufio.NoDirtyByteLost` | md/dm-bufio.c:1382-1462 | In every run each range ever marked is owed by its dirty buffer, whose range takes it in, or went into one write to its block, whose submitted bytes cover it and stay in the block unless the rounding wraps |
| `Bufio.RunGrows` | md/dm-bufio.c:1446-1462 | Marks and writes are never struck from the history, and a sent mark stays with its write |
| `Bufio.ReserveConserved` | md/dm-bufio.c:1663-1681 | In every run reserve plus need is what was requested, need never exceeds the live buffers outside the reserve, and is zero once those are gone |
| `Bufio.AllDropped` | md/dm-bufio.c:2608-2632 | With nothing cached or in hand the reserve is full and the destroy-time warning silent |
| `Bufio.ListPredicates` | md/dm-bufio.c:1497-1525 | The warnings in is_clean and is_dirty never fire on their lists |
| `Bufio.UnclaimedFinds` | md/dm-bufio.c:1531-1552 | With nothing held, a client that may sleep finds a buffer unless none is cached |
| `Bufio.NoSleepLeavesDirty` | md/dm-bufio.c:1542-1543 | A client that may not sleep never takes from its dirty list |
| `Bufio.NoSleepFinds` | md/dm-bufio.c:1497-1552 | but empties its clean list when nothing on it is held or being read |
| `Bufio.MoveCleanIff` | md/dm-bufio.c:1693-1722 | Moving the cleaned buffers empties the dirty list and leaves nothing being read exactly when every cached buffer is idle |
| `Bufio.MoveCleanEmptiesIff` | md/dm-bufio.c:1693-1722 | It empties the dirty list exactly when every buffer on it is idle |
| `Bufio.NoSleepRemains` | md/dm-bufio.c:2345-2378 | Whatever I/O completes between the rounds, a client that may not sleep keeps the dirty list as cleaning left it |
| `Bufio.DropEmptiesIff` | md/dm-bufio.c:2345-2378 | With nothing held, and whatever I/O completes between the rounds, a drop empties the cache exactly when the client may sleep, or every buffer on the dirty list was idle and no read is still under way at the end |
| `Bufio.DropQuietIff` | md/dm-bufio.c:2345-2378 | If nothing completes meanwhile a client that may not sleep is emptied exactly when every cached buffer was idle, and keeps every buffer being read |
| `Bufio.DirtyBufferStays` | md/dm-bufio.c:2345-2378 | A client that may not sleep, with one dirty buffer, keeps it, even if its write completes meanwhile |
| `Bufio.DmBufioClient.Setup` | md/dm-bufio.c:2483-2514 | The client before its reserve is filled |
| `Bufio.DmBufioClient.Create` | md/dm-bufio.c:2465-2601 | Null exactly for a zero or ragged block size or when the allocator runs out; otherwise a sane client with a full reserve |
| `Bufio.DmBufioClient.ReadEndio` | md/dm-bufio.c:1835-1846 | The read bit clears and the status is kept |
| `Bufio.DmBufioClient.WriteEndio` | md/dm-bufio.c:1418-1435 | The write bit clears and the status is kept |
| `Bufio.DmBufioClient.WriteDirtyBuffer` | md/dm-bufio.c:1446-1462 | A dirty buffer is captured once no write is under way; a clean one is left |
| `Bufio.DmBufioClient.MakeBufferClean` | md/dm-bufio.c:1484-1495 | Wait for a read, write if dirty, wait for the write |
| `Bufio.DmBufioClient.EvictClean` | md/dm-bufio.c:1535-1540 | Evict and clean |
| `Bufio.DmBufioClient.GetUnclaimedBuffer` | md/dm-bufio.c:1531-1552 | From the clean list, else from the dirty list if the client may sleep |
| `Bufio.DmBufioClient.AllocBufferOnce` | md/dm-bufio.c:1594-1645 | Allocator, then reserve, then an unclaimed buffer |
| `Bufio.DmBufioClient.FreeBufferWake` | md/dm-bufio.c:1663-1681 | To the reserve while it is owed a buffer, else to the allocator |
| `Bufio.DmBufioClient.WriteDirtyBuffersAsync` | md/dm-bufio.c:1715-1722 | Cleaned buffers move over, then dirty ones are written in ring order |
| `Bufio.DmBufioClient.WriteThese` | md/dm-bufio.c:1704-1713 | The iteration stops at a write under way if it may not wait |
| `Bufio.DmBufioClient.CheckWatermarkNow` | md/dm-bufio.c:1729-1735 | Writing starts when dirty buffers outnumber clean ones three to one |
| `Bufio.DmBufioClient.NewReadFast` | md/dm-bufio.c:1865-1887 | A cached block is held, except for prefetch and for get while it is read |
| `Bufio.DmBufioClient.FoundBuffer` | md/dm-bufio.c:1810-1828 | The same on the slow path |
| `Bufio.DmBufioClient.BufioNew` | md/dm-bufio.c:1776-1829 | The block is looked up again; a buffer that enters is held once and has the read bit set unless it is fresh, as EnterWhere says of the function it computes |
| `Bufio.DmBufioClient.ReleaseHeld` | md/dm-bufio.c:2034-2060 | A failed, quiet buffer with no other holder is freed; otherwise only the hold goes and the buffer stays cached, as ReleaseLeaves says of the function it computes |
| `Bufio.DmBufioClient.MarkPartialBufferDirty` | md/dm-bufio.c:2063-2087 | First mark sets the range and the list, later marks extend the range |
| `Bufio.DmBufioClient.SettleHeld` | md/dm-bufio.c:2156-2159 | After the wait a clean, idle buffer goes to the clean list and the hold goes |
| `Bufio.DmBufioClient.ForgetBuffer` | md/dm-bufio.c:2225-2242 | Only a quiet buffer that nobody else holds is freed |
| `Bufio.DmBufioClient.ForgetBuffers` | md/dm-bufio.c:2258-2268 | For a client that may sleep: exactly the idle, unheld buffers of the range are freed |
| `Bufio.DmBufioClient.ReclaimBuffer` | md/dm-bufio.c:2392-2420 | Evict, clean, free |
| `Bufio.DmBufioClient.DropBuffers` | md/dm-bufio.c:2345-2378 | If nothing is held, nothing stays cached and the reserve is full again exactly under the condition of DropEmptiesIff |
| `BufioFlush.AsyncNoneDirty` | md/dm-bufio.c:1693-1722 | Once all writes are under way no buffer is dirty |
| `BufioFlush.AllSent` | md/dm-bufio.c:1446-1462 | and then every mark has gone into a write |
| `BufioFlush.FlushAdvances` | md/dm-bufio.c:2138-2141 | The iterator skips only what is not being written |
| `BufioFlush.FlushSettles` | md/dm-bufio.c:2156-2159 | A buffer that leaves the ring under the iterator costs it nothing that it owes |
| `BufioFlush.WriteDirtyBuffers` | md/dm-bufio.c:2124-2172 | With the lock to itself: on return every mark made before the call has gone into a write to its block, no buffer is dirty or being written, and holders are as they were; other writes may complete, well or badly, during each wait |
| `BufioViews.StepWhere` | md/dm-bufio.c:1371-2378 | Every call does to each buffer what a plain cache of blocks would do: block, holders, read bit and errors are as expected, a buffer leaves only where it must or may, and one enters only for a block that is not cached, held once and to be read unless fresh |
| `BufioViews.TakesOne` | md/dm-bufio.c:1594-1645 | Getting a buffer or reclaiming one takes one cached buffer at most |
| `BufioViews.FastWhere` | md/dm-bufio.c:1849-1887 | The fast path answers with the buffer cached for the block and takes a hold on it, except for prefetch and for get while it is read |
| `BufioViews.EnterWhere` | md/dm-bufio.c:1758-1829 | The slow path likewise if the block got cached meanwhile; otherwise its own buffer is entered, held once, and being read unless fresh |
| `BufioViews.HeldStays` | md/dm-bufio.c:606-643 | While it has a holder a buffer stays cached under its block, whatever call or completion comes, and its holders change by their own calls only |
| `BufioViews.HeldInEveryRun` | md/dm-bufio.c:606-707 | In every run a buffer that is held and not given back is still cached under its block |
| `BufioViews.ReleaseLeaves` | md/dm-bufio.c:2034-2060 | A release leaves the buffer cached with one hold less, except that the last holder of a failed, quiet buffer takes it out, and its block is then not found |
| `BufioViews.ContentsKnown` | md/dm-bufio.c:1418-1435 | In every run a cached buffer is being read exactly if it entered other than fresh and no read has completed since; its read error is set exactly if that read failed and its write error exactly if its last write did |
| `BufioViews.StaysCached` | md/dm-bufio.c:2034-2060 | In every run a buffer that has not failed stays cached under its block, held or not, until it is taken for another block, reclaimed or forgotten |
| `BufioViews.AllocYields` | md/dm-bufio.c:1594-1645 | A pass uses what the allocator gives; a prefetch makes do with that; others get a buffer from the reserve while there is one, and only then is an unheld one taken out of the cache |
| `BufioViews.AllocSucceeds` | md/dm-bufio.c:1594-1645 | With a reserve to its name and nothing held or in hand, a client that may sleep always gets a buffer, whatever the allocator does |
| `BufioViews.CleanFirst` | md/dm-bufio.c:1531-1552 | Nothing is taken from the dirty list and nothing written while the clean list has an unheld buffer that was not hit |
| `BufioViews.ReclaimFinds` | md/dm-bufio.c:2392-2420 | Reclaiming takes a buffer whenever the list has an unheld one that will do and was not hit |
| `BufioViews.WatermarkIff` | md/dm-bufio.c:1729-1735 | Writing starts above three dirty buffers to a clean one and not before, and then leaves nothing dirty unless it meets a write under way |
| `BufioViews.StopsAtWrite` | md/dm-bufio.c:1704-1713 | A pass that may not wait writes what is dirty up to the first buffer being written, and nothing from there on |
| `BufioRanges.TightMark` | md/dm-bufio.c:2063-2087 | Marking keeps the dirty range the hull of the marks it owes |
| `BufioRanges.NoByteUnmarked` | md/dm-bufio.c:1446-1462 | In every run each write begins where one of its marks begins and ends where one ends |
| `FlushProtocol.FineStep` | md/dm-bufio.c:196-236 | Whatever call comes, an iterator on the dirty list stays on it and owes what it owed, but for what has left the list |
| `FlushProtocol.LaunchesStep` | md/dm-bufio.c:1371-2378 | Whatever call comes, a buffer is being written afterwards only if it was before or a new submission writes it |
| `FlushProtocol.OverStaysOver` | md/dm-bufio.c:1418-1462 | So a write that has completed stays completed, although its buffer may be written again or reused |
| `FlushProtocol.TracksTurn` | md/dm-bufio.c:2124-2172 | Each step of the routine or of anybody else keeps every unfinished write of the flush ahead of the iterator or waited for |
| `FlushProtocol.NeverStuck` | md/dm-bufio.c:2138-2162 | In every run the routine can go on: its iterator does not dangle, the buffer it holds stays cached and is not being read, and what it waits for can complete |
| `FlushProtocol.FlushedAmongOthers` | md/dm-bufio.c:2124-2172 | Whatever calls, iterators and completions of others come between its steps, on return every mark made before the call has gone into a write that covers it, submitted before the routine began to wait, and that write has completed |

## Left out

- SIMD intrinsics and FPU brackets: the affine step is multiplication by the coefficient; that the affine table `gf_table_gfni` holds the products is a finite fact about data.
- The 32-byte table layout of `ec_init_tables_base` and `ec_init_tables_gfni`, and the word-wise fill in `gf_vect_mul_init_base`: a table is its coefficient.
- Galois.AntilogsLog: the first period of `gff_base` is literal data; its second period and its tail of zeros are given by rule.
- The `GF_LARGE_TABLES` branch: finite data, not the default.
- `gf_gen_rs_matrix`: not nonsingular for all sizes beyond two parity rows, and its first two parity rows are those of RAID-6.
- `gf_vect_mul_base`, `gf_vect_dot_prod_base` and the 1- and 3- to 6-row kernels: the same loops as the ones modelled, for a fixed number of rows.
- Raid6Fallback.TwoDataIntx1: stands for the in-tree recovery; its SIMD variants are not modelled. The multiplier tables are taken as what `raid6/mktables.c` puts in them.
- Install, uninstall, self-validation and benchmarks of `raid6_isal.c`, and `lib_main.c`.
- CellTree.RotationInvisible: stands in for red-black balancing; trees are search trees of any shape.
- PrisonV2.LiveIffHeld: says nothing of continuations, since after an early unlock an unowned cell can still hold one (`PrisonV2.UnlockThenPut`); under the discipline it cannot (`PrisonV2.ContinuationKept`).
- `dm_cell_error` and `dm_cell_visit_release`: a release followed by caller code.
- Locks, interrupt contexts and memory barriers, and interleavings inside a public call such as the unlocked bit tests at the start of `dm_bufio_release`.
- BufioFlush.WriteDirtyBuffers: completions may come in during each wait, calls by other threads may not; those are in `FlushProtocol`, which works on values.
- Bufio.DropEmptiesIff: completions may come between the rounds, calls by other threads may not.
- FlushProtocol.FlushedAmongOthers: a completed write may have failed; nothing is said of whether the routine ends while others keep writing, nor of how often it waits with the lock held, when fewer steps of others can come in than are allowed here.
- The write list: a captured write counts as submitted at once, since its range cannot change before its completion.
- The end of `new_read`, which submits and awaits the read and gives a failed buffer back: a completion and a release, in steps of their own.
- `async_write_error`, the device flush and discard, the write and allocation callbacks, sector arithmetic of `block_to_sector`.
- The shrinker's and ageing code's choice of how many buffers to reclaim; reclaiming one buffer with any predicate is modelled.
- Overflow of hold counts, list counts and shared counts.
- Raid6.CpuCache.Recover: the per-CPU cache is one object; preemption is not modelled.
- Lru.LruList.LruEvict: reference bits do not change while the search runs.
- The rest of `md/`: cache, clone, era and other targets, metadata and policies.
