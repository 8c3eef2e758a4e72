# Reel, modelled and proved in Dafny

Reel is a log-structured key-value store. Records are appended to segments, a journal beside each segment lists
what landed, full segments are sealed with a footer that indexes them, and a compactor copies what is still live out
of old segments and retires them. This project models the parts of it that are hard to get right and proves what they
promise, for every input, every run and every crash. `dafny verify dfyconfig.toml` checks all of it.

The source's own form is kept. Objects that are updated in place are classes with the same fields, loops are loops
with invariants, protocols between threads are state machines whose steps are what one thread does at one atomic or
under one lock, and pure code is functions and lemmas.

- **The slab cache** (`SlabTable`, `SlabChains`, `SlabState`, `Slab`, `Hold`): an open-addressed table with
  backward-shift deletion, per-segment doubly linked chains, a free list and a clock hand, all over one array of
  slots, behave together as one map within a byte budget. The mixing function is any function.
- **Compaction** (`Volume`, `Compaction`, `CompactionLasting`, `CompactionFlushes`, `CompactionAnswers`,
  `CompactionAwaited`, `CompactionHolds`, `CompactionOrphans`, `CompactionSlips`): writers, deletes, range deletes,
  passes, flushes, retires and crashes run interleaved over a volume. The index is the newest published version of each
  key. No retire loses the newest published put. No crash leaves a key older than what was published and durable,
  exactly as long as no flush ends with a durable version that nothing outlives.
- **Rewrite and punch plans** (`Sorting`, `RewritePlan`, `Punch`): the loops that plan a pass's reads and the holes
  a punch leaves.
- **Punching** (`Holes`, `HolesSafe`, `HolesLost`): punches interleaved with all that moves a volume, and with crashes.
- **The publish barrier** (`Barrier`, `BarrierSafety`, `BarrierPromises`, `BarrierReads`): a fair queue of readers and batches with
  park and unpark, optimistic reads and group publishing, for any number of threads.
- **The append tail** (`Tail`, `TailSafety`, `TailPromises`, `TailCut`, `TailFlush`) and **the seal** (`SealReader`,
  `SealCrash`): what a flush's answer means, of one segment and of a tail that rolls from one to the next, and what a
  reopened segment reads as after a crash at any point of a seal.
- **The journal** (`JournalFormat`, `JournalRead`, `Journal`): what reads back after any mix of pushes and failed,
  short or whole writes.
- **Packed rows** (`ByteStrings`, `Numbers`, `KeyOrder`, `PackedRows`, `Prefix`, `PrefixSeek`, `PrefixReaders`,
  `PrefixUnpack`): prefix and delta compression with restarts, the seek that never rebuilds a key, and every reader.
- **The key merge** (`MergeHeap`, `KeyMerge`): the heap merge of many sorted sources.
- **Footers** (`FooterSort`, `FooterLookup`, `BlockLookup`, `KeyFilter`, `FooterAnswers`): the head-first sort, the
  lookups and the filters, each and joined.

## Where the code does not meet its promise

Seven promises hold only under a condition. For each there is a concrete run that breaks it, and a theorem that says
exactly when it holds.

- A record can land and stay unpublished: a batch lands on one tail, the sync of another tail fails, and the batch
  returns its error without publishing (`apply_batch`). Its segment seals and is compacted like any other, and the
  pass finds the record dead. The files answer with it before and without it after
  (`CompactionOrphans.OrphanTakenBack`). `CompactionAnswers.RetireKeepsNewestExactly` states that a retire keeps a
  key's newest record exactly if it is not such a record standing in that segment alone. The newest published put is
  kept in any case (`CompactionAnswers.NewestNeverLost`).
- A pass lands a run of copies, drops each copy's hold as it collects the repoints, and only then repoints the index
  (`land_run`). A second pass can start on the copies' segment in between, find them dead and retire it
  (`CompactionHolds.LooseRunLoses`). The results over every run are for runs in which no pass starts on a segment where
  a newest put's copy is awaited. `CompactionAwaited.SafeExactlyUnawaited` states, state by state, that starting a pass
  is safe for all that may follow exactly then.
- A punch frees the blocks of puts that are not live when it asks (`erase_segment`). In that same window it finds a
  landed copy dead, and the index is then pointed at a hole (`HolesLost.AwaitedIsHoled`).
  `HolesSafe.SafeExactlyUnawaited` states that starting a punch is safe, short of a crash upon an unburied hole, exactly
  if no newest put's copy is awaited in the segment. A put that was given up unpublished is freed too, but its footer
  still lists it, and a rebuild may choose it over the published one (`HolesLost.OrphanIsHoled`).
  `HolesSafe.CrashExactlyBuried` states exactly which holes a crash can put the index on, and
  `HolesSafe.SafeExactlySpent` which puts a punch may take.
- A flush of a tail waits for the sealer and then looks at the segment the tail is on (`Appender::flush`). A tail that
  rolls in between, or has rolled and not yet handed its segment over, leaves a segment that the flush does not wait
  for (`TailFlush.RollSlipsBy`). `TailFlush.OkExactlySealed` states that an Ok covers a record of a left segment
  exactly if it was durable already or that seal had been tried when the flush looked.
- A pass retires its segment, and a punch frees its blocks, once such a flush is Ok. With the newer version of a key in
  the segment that slipped by, the pass retires the only durable version and a crash leaves none
  (`CompactionSlips.SlipLoses`), or the index comes back on the hole of the older one (`HolesLost.SlipIsHoled`).
  `CompactionLasting.EndsExactlyLasting` states that the flush of a pass may end, for all that may follow, exactly if
  every durable published version is outlived by one no pass may retire yet, or by a delete nothing can come back
  from. Where no roll slips by it always may (`CompactionFlushes.CleanIsFirm`). `HolesSafe.EndsExactlyCovering` states
  the like for a punch. What is said of landed records holds in any case.
- A writer reads the room as a separate action after its claim (`place`). If a later writer lands in between and its
  rows take room, the earlier claim moves the cut below the later record (`TailCut.LateLookCuts`). For any state
  reached in order, `TailCut.SafeExactlyInOrder` states that turning a claim away is safe for all that may follow
  exactly if nothing was taken past it. This is so whenever claim and look are one step (`TailCut.PromptIsInOrder`).
- A seal that failed after it cut the rows off is retried, and writes a new footer over the old one
  (`SealCrash.TwoAttemptsLoseAll`). `SealCrash.SafeExactlyBeforeCut` states that another attempt is safe at every
  crash point exactly if no earlier one went as far as the cut.

The seal's mark is also found less often than its comment suggests. A reader looks for it in the last 4096 bytes only,
and zeros laid ahead of the rows can push it out of them. `SealReader.MarkIsRead` states exactly when it is found; where
it is not, the segment is read from its rows, which are all still whole.

## Assumptions

- Bytes are integers, and `u64` counters that only ever rise do not wrap. Where the width of a number matters, it is
  written out: number encodings, restart offsets, the bloom filter's arithmetic, zigzag differences.
- What a journal reads back as is stated under the assumption that no checksum holds by chance at the few places where
  the reader looks and no group lies (`JournalRead.Honest`). A failed write is taken to land a front part of its bytes.
- The flush that a pass or a punch waits for may come back with any segment not durable that its tail has rolled off.
  One that a tail is still on is taken to be durable up to what had landed, as `TailFlush.OkCoversItsOwn` states.
- Which of two copies of one record a rebuild picks is left open. The code takes the segment with the higher number,
  and a pass may copy into one with a lower.
- The barrier's atomics are taken to be sequentially consistent, though the code asks for acquire and release only.
- A crash during a seal may leave any part of each write since the last sync, with any bytes where it was torn, and all
  or nothing of a cut. Behind the block of the seal's mark the file holds nothing but zeros laid ahead.
- A slab has fewer than `u32::MAX` slots, and a packed block fewer than 2^32 bytes, as the source's casts assume.

## Model

| member | source | states |
|---|---|---|
| `SlabTable.SegmentUnpacks` | crates/reel/src/hold.rs:29-43 | a key packed of segment, column and block, and a whole segment's key, unpack to their segment |
| `SlabTable.KeysApart` | crates/reel/src/hold.rs:29-38 | different segments, columns or blocks never share a key |
| `SlabTable.GapEndsSearch` | crates/reel/src/hold.rs:245-255 | a probe that has met an empty place has passed every place the key could be at: a key that is placed is met before any gap |
| `SlabTable.FindGap` | crates/reel/src/hold.rs:245-268 | a table with fewer keys than places has an empty place, so every probe loop ends |
| `SlabTable.InsertKeepsTable` | crates/reel/src/hold.rs:292-299 | writing a key into the first empty place from its home keeps every placed key reachable |
| `SlabTable.ShiftOpens` | crates/reel/src/hold.rs:271-275 | emptying a key's place leaves every other path whole but for that one hole |
| `SlabTable.ShiftPasses` | crates/reel/src/hold.rs:276-289 | an entry whose path from home does not cross the hole may stay where it is |
| `SlabTable.ShiftMoves` | crates/reel/src/hold.rs:276-289 | an entry whose path crosses the hole moves back into it, and only its own place becomes the hole |
| `SlabTable.ShiftEnds` | crates/reel/src/hold.rs:276-289 | once the probe meets an empty place no path crosses the hole: the table holds exactly the remaining keys, all reachable |
| `SlabChains.LinkKeepsChains` | crates/reel/src/hold.rs:318-327 | linking a slot in front of its bucket leaves every chain doubly linked, with that slot added to its own |
| `SlabChains.UnlinkKeepsChains` | crates/reel/src/hold.rs:329-344 | unlinking a slot takes exactly it out of its chain, and every chain stays doubly linked |
| `SlabChains.VacatedKeepsFree` | crates/reel/src/hold.rs:390-406 | a slot given back becomes the tail of the free list, behind all others |
| `SlabState.TableHasGap` | crates/reel/src/hold.rs:302-311 | a shard that has made room for another key has an empty table place |
| `SlabState.DropSegment` | crates/reel/src/hold.rs:430-457 | dropping every held slot of a segment leaves exactly the entries outside it |
| `SlabState.SweepMeets` | crates/reel/src/hold.rs:409-427 | two turns of the hand meet an entry not read since the hand last passed it, whenever anything is held |
| `SlabState.SweepEnds` | crates/reel/src/hold.rs:409-427 | the entry the hand stops at is the first not read since it last passed, or the first of all when every one was read |
| `Slab.Inner.constructor` | crates/reel/src/hold.rs:231-242 | an empty shard: the invariant holds and nothing is held |
| `Slab.Inner.Find` | crates/reel/src/hold.rs:245-255 | a probe finds a slot exactly when the key is held, and that slot shows the key's entry |
| `Slab.Inner.TableAt` | crates/reel/src/hold.rs:258-268 | the table place of a held key |
| `Slab.Inner.TableRemove` | crates/reel/src/hold.rs:271-289 | backward-shift removal takes out exactly one key and keeps every other findable |
| `Slab.Inner.TableInsert` | crates/reel/src/hold.rs:292-299 | the key is placed where a later probe finds it, and every other key stays findable |
| `Slab.Inner.ChainLink` | crates/reel/src/hold.rs:318-327 | the slot is linked at the front of the chain of its segment |
| `Slab.Inner.ChainUnlink` | crates/reel/src/hold.rs:329-344 | exactly this slot leaves its chain |
| `Slab.Inner.Regrow` | crates/reel/src/hold.rs:302-311 | doubling the table and the chains and rehashing keeps all that is held, as a map |
| `Slab.Inner.Put` | crates/reel/src/hold.rs:347-381 | the map gains exactly the new entry, unread; table, chains, free list and counts all stay in step |
| `Slab.Inner.FreeSlot` | crates/reel/src/hold.rs:390-406 | a slot off its chain is taken out of the table, weighed off and put at the end of the free list |
| `Slab.Inner.DropSlot` | crates/reel/src/hold.rs:384-387 | exactly the entry of this slot is gone from the map, and its weight is returned |
| `Slab.Inner.Read` | crates/reel/src/hold.rs:147-154 | answers what the map holds under the key and sets its read mark, changing nothing else |
| `Slab.Inner.Remove` | crates/reel/src/hold.rs:180-188 | the key is gone and what it held and weighed is handed back; a key not held changes nothing |
| `Slab.Inner.Forget` | crates/reel/src/hold.rs:430-457 | exactly the entries of one segment go, their weights are returned, and all lists and the table stay whole |
| `Slab.Inner.Evict` | crates/reel/src/hold.rs:409-427 | nothing is given up only when nothing is held; otherwise exactly the victim goes, the marks the hand passed are cleared, and the victim was not read since the hand last passed it unless every entry was |
| `Hold.WeightsOfWhole` | crates/reel/src/hold.rs:157-198 | the shards' weights together are the weight of the whole map |
| `Hold.Cache.constructor` | crates/reel/src/hold.rs:122-135 | an empty cache within its budget |
| `Hold.Cache.Get` | crates/reel/src/hold.rs:148-154 | answers as one map would, and marks the entry read |
| `Hold.Cache.Take` | crates/reel/src/hold.rs:180-188 | exactly this key goes, and the byte count falls by its weight |
| `Hold.Cache.MakeRoom` | crates/reel/src/hold.rs:166-174 | entries of one shard are given up until the weight fits, and no more: before the last one went it did not fit; or the shard is empty; other shards keep all |
| `Hold.Cache.Insert` | crates/reel/src/hold.rs:157-177 | the byte count is the sum of held weights and stays within the budget; a held key and an entry over the budget change nothing; any other lands beside entries held before, evicting none when there was room and else no more than it takes, or is turned away only when its shard is empty and it still does not fit |
| `Hold.Cache.Forget` | crates/reel/src/hold.rs:191-198 | exactly the segment's entries go, over all shards, whatever column and block they were packed with, every entry of another segment stays, and the count falls by their weights |
| `Volume.TopExists` | crates/reel/src/compaction/compactor.rs:611-773 | a key some landed copy reaches has a newest copy that reaches it, at least as new |
| `Volume.AnswersExactly` | crates/reel/src/index/entry.rs:106-117 | a key reads as a value exactly if a put of it landed that every later landed record misses, and as nothing exactly if none did; a range delete misses the keys below its start and those from its end on |
| `Volume.DeleteHides` | crates/reel/src/index/column.rs:624-632 | a landed delete of the key, or a range delete from at or below it to past it, leaves nothing to read where it is past every landed put of the key |
| `Compaction.StartPassKeeps` | crates/reel/src/compaction/compactor.rs:611-630 | a pass that starts under its floor, on a segment of finished writes where no newest put's copy is awaited, keeps the invariant, whether or not those writes were published |
| `Compaction.CopyLiveKeeps` | crates/reel/src/compaction/compactor.rs:1156-1215 | landing a copy of a live record under its own number keeps the invariant |
| `Compaction.RepointKeeps` | crates/reel/src/compaction/compactor.rs:930-958 | pointing the index at a copy, guarded by the record's number, keeps the invariant |
| `Compaction.CarryKeeps` | crates/reel/src/compaction/compactor.rs:1220-1254 | carrying a delete into the destination keeps the invariant |
| `Compaction.DropKeeps` | crates/reel/src/compaction/compactor.rs:1220-1236 | dropping a delete that should not be carried keeps the invariant |
| `Compaction.RetireKeeps` | crates/reel/src/compaction/compactor.rs:752-773 | retiring a finished pass's segment keeps the invariant, whether or not a roll slipped by its flush |
| `Compaction.CrashKeeps` | crates/reel/src/compaction/compactor.rs:719-772 | a crash at any step, whatever it keeps of what was not synced, and the rebuild from what is left, keeps the invariant |
| `Compaction.StepKeeps` | crates/reel/src/compaction/compactor.rs:611-773 | every step of writers, passes, flushes that a roll may slip by, retires and crashes keeps the invariant, but for a pass that starts where a newest put's copy is awaited; `CompactionAwaited.SafeExactlyUnawaited` says what becomes of that one |
| `Compaction.ReachedOk` | crates/reel/src/compaction/compactor.rs:611-773 | whatever runs from an empty volume by such steps satisfies the invariant |
| `CompactionLasting.LastingStays` | crates/reel/src/compaction/compactor.rs:719-773 | every such step keeps every durable published version outlived, by a durable one in a segment no pass may retire yet or by a delete nothing can come back from, but for a flush that ends with one that is not |
| `CompactionLasting.EndsExactlyLasting` | crates/reel/src/reel/mod.rs:2000-2005 | for every state so reached: the flush of a pass may end, slipped by or not, so that no later retire leaves a durable version with nothing as new behind it, exactly if every durable published version is outlived once the pass counts as flushed |
| `CompactionLasting.NotOutlivedLost` | crates/reel/src/compaction/compactor.rs:752-773 | where one is not, the retires after which a crash leaves nothing as new of its key |
| `CompactionSlips.SlipLoses` | crates/reel/src/compaction/compactor.rs:719-773 | a concrete run: a roll slips by the flush of a pass, the pass retires the only durable version, and a crash leaves the key neither the older value nor the newer |
| `CompactionFlushes.AskFlushWitness` | crates/reel/src/compaction/compactor.rs:719-723 | when a pass asks for its flush, every published version its segment holds is covered by a published record that stands elsewhere, or by a delete dropped with all it shadows |
| `CompactionFlushes.WitnessOutlives` | crates/reel/src/compaction/compactor.rs:719-773 | where no roll has slipped by a flush, every version in a flushed segment is outlived |
| `CompactionFlushes.CleanIsFirm` | crates/reel/src/append/mod.rs:469-476 | a run in which no roll slips by a flush ends no flush with a durable version left to lose |
| `CompactionAnswers.RetireKeepsAnswers` | crates/reel/src/compaction/compactor.rs:611-773 | in every such run, retiring a segment changes no key's answer as landed, whether or not rolls slip by flushes, nor its durable answer where no flush ends with a version not outlived, unless the segment alone holds the key's newest record and that record was given up unpublished |
| `CompactionAnswers.RetireKeepsNewestExactly` | crates/reel/src/compaction/compactor.rs:611-773 | a retire keeps a key's newest record standing, or it is a published delete that goes with all it shadows, exactly if that record is not an unpublished one that stands in the segment alone; of landed records in every such run, of durable ones where no flush ends with a version not outlived |
| `CompactionAnswers.RetireKeepsTop` | crates/reel/src/compaction/compactor.rs:752-773 | a published newest record survives a retire outside the segment, or is a delete that goes with all it shadows |
| `CompactionAnswers.OrphanIsLost` | crates/reel/src/compaction/compactor.rs:1156-1170 | an unpublished newest record that stands in the segment alone is gone after the retire, and whatever the key reads as then is older |
| `CompactionOrphans.OrphanTakenBack` | crates/reel/src/engine/write.rs:85-93 | a concrete run: a put lands, its batch fails before it is published, and compacting its segment takes the answer back to the older value |
| `CompactionAnswers.DropHidesNothing` | crates/reel/src/compaction/compactor.rs:1591-1617 | a delete dropped for its age hides nothing outside its segment, unless it was never published and the put it hid is live and just copied; and nothing as old can still land |
| `CompactionAnswers.DropReplaced` | crates/reel/src/compaction/compactor.rs:1591-1603 | a delete at or past the floor is dropped only when a newer put of its key is published and stands |
| `CompactionAnswers.NewestNeverLost` | crates/reel/src/compaction/compactor.rs:611-773 | the newest published put of a key is, in every such run, where the index says, in a segment that stands |
| `CompactionAnswers.IndexAgrees` | crates/reel/src/compaction/compactor.rs:1156-1170 | where all that landed for a key is published, the files answer what the index's newest version says |
| `CompactionAnswers.SettledThroughRun` | crates/reel/src/compaction/compactor.rs:719-772 | a key whose landed records are all published and whose newest is durable answers the same, landed and after a crash, at the end of any run that lands no new record of it and ends no flush with a version not outlived, with crashes in it |
| `CompactionAnswers.CrashNeverOlder` | crates/reel/src/compaction/compactor.rs:719-772 | for every key: once a published record of it is durable, a crash at whatever later step, the first since then, and whatever it keeps of what was not synced, leaves a record at least as new, unless a published delete at least as new was dropped, and then nothing up to that delete turns up; in runs that end no flush with a version not outlived; `CompactionLasting.EndsExactlyLasting` says what becomes of the others |
| `CompactionHolds.StartsEarly` | crates/reel/src/reel/mod.rs:1514-1519 | with a copy landed and its hold given up before the repoint, nothing the code tests keeps a second pass off the copy's segment |
| `CompactionHolds.LooseRunLoses` | crates/reel/src/compaction/compactor.rs:930-958 | a concrete run, with the hold given up before the repoint, that loses the newest published put |
| `CompactionAwaited.SafeExactlyUnawaited` | crates/reel/src/compaction/compactor.rs:930-958 | for every state so reached and every pass that the code would start: in all that may follow the index stays on copies that stand, exactly if no newest put has its copy in that segment without the index knowing |
| `CompactionAwaited.Loses` | crates/reel/src/compaction/compactor.rs:930-958 | where one has, the run that skips the copy, points the index at it and retires its segment |
| `Sorting.SortByKey` | crates/reel/src/compaction/compactor.rs:1124-1124 | the library sort as used: some arrangement of the elements, in order |
| `Punch.Coalesce` | crates/reel/src/compaction/compactor.rs:1125-1131 | the runs hold exactly the bytes of the dead records, and no two runs touch |
| `Punch.Holes` | crates/reel/src/compaction/compactor.rs:1132-1140 | a byte is in a hole exactly when its whole block is dead; holes are whole blocks |
| `Punch.EraseSegment` | crates/reel/src/compaction/compactor.rs:1095-1152 | a byte is freed exactly when the file may be punched and its whole block belongs to dead data records |
| `Punch.HolesSpareTheLiving` | crates/reel/src/compaction/compactor.rs:1107-1152 | no byte of a record that was live when the punch asked, or of a delete, is in a hole |
| `Holes.MoveKeeps` | crates/reel/src/compaction/compactor.rs:1107-1145 | whatever writers, passes and flushes do while segments are punched, no put a punch took, nor any in a hole, comes to life where it lies |
| `Holes.PunchKeeps` | crates/reel/src/compaction/compactor.rs:1136-1145 | a punch that ends its flush only with the spent puts it took covered keeps that, and has a newer durable record behind each it frees |
| `Holes.HistoryKeeps` | crates/reel/src/compaction/compactor.rs:995-1152 | and so does every history of moves and punches: one that takes and flushes as the code does and crashes only where every hole is buried, or one that takes and flushes with care and crashes anywhere |
| `Holes.CoveredAsk` | crates/reel/src/compaction/compactor.rs:1136-1145 | a flush that nothing slips by leaves every spent put the punch took covered |
| `HolesSafe.SafeExactlyUnawaited` | crates/reel/src/compaction/compactor.rs:995-1005 | for every state reached: in all that may follow, slipped flushes included and crashes where every hole is buried, the index stays on copies whose bytes are there, exactly if the punch starts where no newest put has its copy without the index knowing |
| `HolesSafe.PunchLoses` | crates/reel/src/compaction/compactor.rs:1107-1145 | where one has, the history that finds the copy dead, frees it and then points the index at it |
| `HolesLost.AwaitedIsHoled` | crates/reel/src/compaction/compactor.rs:930-958 | a concrete one from an empty volume: the only published put of a key ends in a hole |
| `HolesSafe.CrashExactlyBuried` | crates/reel/src/compaction/compactor.rs:1136-1145 | for every state reached, with crashes behind it where every hole was buried: whatever a crash keeps and a rebuild picks, the index is off the holes exactly if each put in a hole has a newer durable record of its key |
| `HolesSafe.SafeExactlySpent` | crates/reel/src/compaction/compactor.rs:1107-1123 | taking a put into a punch is safe for all that may follow, crashes anywhere in it, exactly if a newer record of its key is published or lies beside it in its segment, where nothing else newer landed for the key |
| `HolesSafe.UnspentLoses` | crates/reel/src/compaction/compactor.rs:1107-1145 | a put taken with nothing newer landed for its key: the history that frees it and the crash after which the index is on the hole |
| `HolesSafe.EndsExactlyCovering` | crates/reel/src/compaction/compactor.rs:1136-1145 | the flush of a punch may end for all that may follow, crashes anywhere in it, exactly if every spent put it took has a durable newer record published or beside it, where no other durable record is newer for their keys |
| `HolesLost.SlipIsHoled` | crates/reel/src/compaction/compactor.rs:1136-1145 | a concrete one: the newer version slips by the flush of the punch, and a crash puts the index on the hole |
| `HolesSafe.DeleteIsCarried` | crates/reel/src/compaction/compactor.rs:1591-1617 | a newer delete given up unpublished in another segment goes on to shadow a put: a pass carries it, unless it copied the put itself or a newer record is published |
| `HolesLost.OrphanIsHoled` | crates/reel/src/index/map.rs:839-891 | a concrete one: a put given up unpublished is freed, the index is whole, and a crash makes the put in the hole the newest |
| `RewritePlan.StripeEnd` | crates/reel/src/compaction/compactor.rs:1898-1910 | the longest stripe whose rows the stage holds, and at least one row |
| `RewritePlan.WaveLen` | crates/reel/src/compaction/compactor.rs:1962-1975 | as many reads as the depth allows, or up to the first that fills the pace step, and at least one |
| `RewritePlan.ChunkRanges` | crates/reel/src/compaction/compactor.rs:1981-2013 | the reads serve the plan in turn, each the longest stretch one read may serve and taking in every record it serves |
| `RewritePlan.FetchStripe` | crates/reel/src/compaction/compactor.rs:795-850 | every row of a stripe gets the slot of its footer place filled from a read that takes in its record |
| `RewritePlan.RewriteOrdered` | crates/reel/src/compaction/compactor.rs:777-871 | every kept row is applied exactly once, in footer order, from a read that takes in its record |
| `BarrierSafety.WakeFrontKeeps` | crates/reel/src/append/publish.rs:62-81 | waking the front touches nothing but tokens, and leaves no front waiter that may enter without one |
| `BarrierSafety.EnterKeeps` | crates/reel/src/append/publish.rs:227-250 | entering the barrier keeps the invariant |
| `BarrierSafety.LeaveKeeps` | crates/reel/src/append/publish.rs:253-268 | leaving the barrier keeps the invariant |
| `BarrierSafety.StartKeeps` | crates/reel/src/append/publish.rs:159-166 | counting a batch as started keeps the invariant, so that no fill begun before will be taken |
| `BarrierSafety.PublishGroupedKeeps` | crates/reel/src/append/publish.rs:169-202 | joining a gathering group, or leading a new one, keeps the invariant |
| `BarrierSafety.EndFollowKeeps` | crates/reel/src/append/publish.rs:109-129 | a joiner that ends, by returning or by a panic, keeps the invariant and does not leave its leader asleep |
| `BarrierSafety.StepKeeps` | crates/reel/src/append/publish.rs:49-281 | every step of every thread keeps the invariant |
| `BarrierSafety.ReachedOk` | crates/reel/src/append/publish.rs:141-281 | every state a run of any threads comes to satisfies the invariant |
| `BarrierPromises.Exclusion` | crates/reel/src/append/publish.rs:51-59 | a batch inside excludes every other batch and every read |
| `BarrierPromises.ServedInOrder` | crates/reel/src/append/publish.rs:227-250 | the places served so far, followed by those waiting, are all that were handed out, in order |
| `BarrierPromises.NoLostWakeup` | crates/reel/src/append/publish.rs:62-81 | a front waiter that may enter is awake or holds a token |
| `BarrierPromises.TakenReadsAreWhole` | crates/reel/src/append/publish.rs:205-224 | a fill that would be taken now, outside the queue or inside, began with no batch midway, and the index has not moved since |
| `BarrierReads.TakenExactlyIfNoneStarted` | crates/reel/src/append/publish.rs:205-224 | whatever the other threads do between its looks, a read outside the queue is taken exactly if no batch started between the first look and the last; then the index is at one version at both ends of the fill, with no batch midway |
| `BarrierReads.AcceptTakes` | crates/reel/src/append/publish.rs:211-213 | a fill is taken exactly if the count of started batches is unchanged, and else the read joins the queue |
| `BarrierReads.QuietReadIsTaken` | crates/reel/src/append/publish.rs:205-224 | with no batch inside, a read that nobody disturbs is taken and leaves everything as it was |
| `BarrierReads.NoFillUnderBatch` | crates/reel/src/append/publish.rs:219-224 | while a batch is under way no fill starts outside the queue |
| `BarrierReads.InsideNothingMoves` | crates/reel/src/append/publish.rs:215-216 | while a read is inside, whatever the other threads do, the index does not move |
| `BarrierReads.FrontEntersExactly` | crates/reel/src/append/publish.rs:51-59 | just the front of the queue may enter: a reader exactly if no batch is inside, a batch exactly if nobody is |
| `BarrierReads.CheckEnters` | crates/reel/src/append/publish.rs:227-251 | whoever looks and may enter goes in, a reader beside those inside, a batch alone |
| `BarrierReads.EndReadTakes` | crates/reel/src/append/publish.rs:205-216 | a read inside ends with what it filled, at one version with no batch midway |
| `BarrierReads.WakesOnce` | crates/reel/src/append/publish.rs:227-251 | whoever is woken and may not enter is asleep again once it has looked |
| `BarrierReads.MayStart` | crates/reel/src/append/publish.rs:150-202 | an idle thread may ask for any kind of read or batch, and whoever leads or follows may move the index |
| `BarrierPromises.JoinersMoveUnderTheirLeader` | crates/reel/src/append/publish.rs:169-202 | every joiner's moves fall between its own leader's started and finished marks |
| `BarrierPromises.MovesAreCounted` | crates/reel/src/append/publish.rs:270-281 | the index moves only while a batch is counted as started and not as finished |
| `BarrierPromises.NoDeadlock` | crates/reel/src/append/publish.rs:139-281 | while any thread is busy, some thread can take a step that is not a spurious wakeup |
| `Numbers.PutVarint` | crates/reel/src/format/prefix.rs:274-280 | appends the number's bytes and nothing else |
| `Numbers.GetVarint` | crates/reel/src/format/prefix.rs:284-299 | reads as the specification does: truncated numbers and those past ten bytes are refused |
| `Numbers.ReadsBack` | crates/reel/src/format/prefix.rs:274-299 | every 64-bit number reads back as itself from wherever its bytes lie |
| `Numbers.Zigzag` | crates/reel/src/format/prefix.rs:307-313 | folding a signed 64-bit number into an unsigned one is undone by the unfolding, for all of them |
| `Numbers.WrappingDiff` | crates/reel/src/format/prefix.rs:324-365 | the wrapped signed difference of two 64-bit numbers, added back, gives the number, for all pairs |
| `Numbers.Le32ReadsBack` | crates/reel/src/format/prefix.rs:315-321 | four little-endian bytes read back as the number they were written from |
| `PackedRows.TailReadsBack` | crates/reel/src/format/prefix.rs:324-365 | a row's tail reads back against the row before it, for every pair of tails |
| `PackedRows.RowReadsBack` | crates/reel/src/format/prefix.rs:369-384 | a packed row reads back from wherever its bytes lie |
| `PackedRows.ReadsAt` | crates/reel/src/format/prefix.rs:369-384 | every row of a packed list reads back from where it starts, against the row before it |
| `PackedRows.KeyRebuilt` | crates/reel/src/format/prefix.rs:525-545 | a key is what it shares with the key before it and its own rest |
| `PackedRows.CutAtRestart` | crates/reel/src/format/prefix.rs:786-819 | what is packed from a restart on does not depend on the rows before it |
| `Prefix.PushAppends` | crates/reel/src/format/prefix.rs:122-156 | an accepted row leaves exactly the fields that packing the longer list from scratch gives |
| `Prefix.PrefixRows.constructor` | crates/reel/src/format/prefix.rs:86-92 | an empty block packs no rows |
| `Prefix.PrefixRows.Push` | crates/reel/src/format/prefix.rs:122-156 | a row out of order, or of another tail, is refused and changes nothing; any other is added, and the bytes, restarts and last key are those of the longer list |
| `KeyOrder.BeforeExactly` | crates/reel/src/format/column.rs:141-145 | one key comes before another exactly if they agree up to a place where it ends and the other goes on, or has the lesser byte |
| `PrefixSeek.JudgeIsCompare` | crates/reel/src/format/prefix.rs:195-246 | the running comparison, of suffixes and a match length only, is the comparison of the whole keys |
| `PrefixSeek.WalkBlock` | crates/reel/src/format/prefix.rs:195-246 | the first row of a block at or past the target, or that all of it is before |
| `PrefixSeek.Walk` | crates/reel/src/format/prefix.rs:195-246 | from one block on, the first row at or past the target, the next block's first row included |
| `PrefixSeek.RestartKey` | crates/reel/src/format/prefix.rs:164-172 | the whole key of a restart row |
| `PrefixSeek.Seek` | crates/reel/src/format/prefix.rs:175-192 | for every list of rows in order, duplicates included, exactly the first row whose whole key is at or above the target |
| `PrefixSeek.PushedRowsSeek` | crates/reel/src/format/prefix.rs:122-192 | rows pushed one by one make a block the seek answers from |
| `PrefixReaders.Encode` | crates/reel/src/format/prefix.rs:828-835 | the bytes, the restarts and the two counts, in that order |
| `PrefixReaders.EncodedParts` | crates/reel/src/format/prefix.rs:828-835 | where in an encoded block its parts lie |
| `PrefixReaders.ReadFrame` | crates/reel/src/format/prefix.rs:886-918 | the frame of an encoded block reads back; whatever bytes are accepted have a table that fits them and restarts that lie inside the rows |
| `PrefixReaders.Decode` | crates/reel/src/format/prefix.rs:855-869 | an encoded block decodes to the block it was encoded from; whatever else is accepted frames its rows |
| `PrefixUnpack.UnpackBlock` | crates/reel/src/format/prefix.rs:786-819 | the cut from one restart to a later one unpacks to exactly its rows |
| `PrefixUnpack.CutsUnpack` | crates/reel/src/format/prefix.rs:786-819 | every run of whole restart blocks, cut from the whole, is what packing its own rows alone gives |
| `PrefixUnpack.Unpack` | crates/reel/src/format/prefix.rs:928-986 | an encoded block unpacks to exactly the rows pushed, keys and tails |
| `PrefixUnpack.PrefixCursor.Advance` | crates/reel/src/format/prefix.rs:525-545 | the cursor stands on each row in turn, whole, and then at the end |
| `PrefixUnpack.PackedCursor.Step` | crates/reel/src/format/prefix.rs:739-769 | one step reads the next row of the block against the one at hand, and refuses a flag byte no writer produces |
| `PrefixUnpack.PackedCursor.Read` | crates/reel/src/format/prefix.rs:709-735 | the row at any index, or none past the last one, whatever was asked for before: the same key and tail |
| `MergeHeap.SiftDown` | crates/reel/src/compaction/keymerge.rs:366-383 | a heap out of order at one place only comes into order, with the same cursors in it |
| `MergeHeap.Heapify` | crates/reel/src/compaction/keymerge.rs:305-311 | the same cursors, in heap order |
| `MergeHeap.TopIsLeast` | crates/reel/src/compaction/keymerge.rs:357-363 | the cursor on top of a heap stands before all others |
| `KeyMerge.AdvanceTop` | crates/reel/src/compaction/keymerge.rs:330-334 | the top cursor goes on, or out once spent, and the heap is in order again over the rows left |
| `KeyMerge.GatherKey` | crates/reel/src/compaction/keymerge.rs:317-335 | every row of the least key is taken, and the newest in a standing segment is kept |
| `KeyMerge.MergeColumn` | crates/reel/src/compaction/keymerge.rs:277-354 | the rows written have keys strictly ascending, each with the greatest number any source has for it in a standing segment, and exactly the keys that have one; nothing is written only if some key's newest standing row is in a segment not covered, and never if every standing segment with a row is covered |
| `KeyMerge.LastBest` | crates/reel/src/compaction/keymerge.rs:336-351 | a row about to be written is the newest of its key over all sources, those not read yet included |
| `JournalFormat.RowReadsBack` | crates/reel/src/format/journal.rs:121-154 | a row reads back from wherever it lies |
| `JournalFormat.PushGroup` | crates/reel/src/format/journal.rs:34-67 | appends exactly one group's bytes, its head filled in behind its rows |
| `JournalFormat.GroupReadsBack` | crates/reel/src/format/journal.rs:102-119 | a group reads back whole from wherever it lies |
| `JournalFormat.GroupsPass` | crates/reel/src/format/journal.rs:102-119 | whatever bytes read as a group, it is of at least one row, as many and as long as its head says, with its checksum right |
| `JournalFormat.ReadRowsInTurn` | crates/reel/src/format/journal.rs:102-119 | so many rows one behind the other, or nothing at the first that does not read |
| `JournalRead.ReadGroups` | crates/reel/src/format/journal.rs:79-100 | of any bytes, just the groups that read one behind the other from the front, zeros up to a block stepped over, until none follows; where groups were laid there and no checksum holds by chance at the few places where the reader looks and none lies, exactly these |
| `JournalRead.TakenPass` | crates/reel/src/format/journal.rs:79-119 | every group taken has its checksum and lies behind the one before |
| `Journal.Log.constructor` | crates/reel/src/append/journal.rs:58-66 | an empty journal |
| `Journal.Log.Resume` | crates/reel/src/append/journal.rs:69-94 | a reopened journal goes on behind its last whole group, at a block boundary where the volume asks for it |
| `Journal.Log.Push` | crates/reel/src/append/journal.rs:136-145 | one more group waits behind the others; no rows push nothing |
| `Journal.Log.BeginWrite` | crates/reel/src/append/journal.rs:161-180 | a write takes all that waits, padded to whole blocks where asked; a journal that lost rows refuses |
| `Journal.Log.Land` | crates/reel/src/append/journal.rs:196-200 | the groups of a whole write are in the file behind the others |
| `Journal.Log.Lose` | crates/reel/src/append/journal.rs:184-194 | a write whose buffer is gone marks its rows lost |
| `Journal.Log.PutBack` | crates/reel/src/append/journal.rs:218-225 | a failed write's groups wait in front of those pushed since, without the padding |
| `Journal.Log.EndWrite` | crates/reel/src/append/journal.rs:161-215 | whatever part of a write landed, its groups are in the file, back in front, or known to be lost |
| `Journal.Log.ReadBack` | crates/reel/src/append/journal.rs:136-225 | at any point the file reads back as all written groups followed by a front part of those still to be written, in push order and none twice |
| `Journal.Log.Accounted` | crates/reel/src/append/journal.rs:136-225 | unless rows were lost, `pushed` is the bytes written, on their way and waiting |
| `TailSafety.StepKeeps` | crates/reel/src/append/mod.rs:702-785 | every step of writers, flushers and the sealer keeps the invariant |
| `TailSafety.RunKeeps` | crates/reel/src/append/mod.rs:702-785 | and so does every run |
| `TailPromises.AnswersAreTrue` | crates/reel/src/append/mod.rs:1032-1084 | whoever is told their bytes are on the device has there every record that had landed when they asked |
| `TailFlush.OkExactlySealed` | crates/reel/src/append/mod.rs:469-476 | where the segment the tail is on can still be synced: every Ok of a flush that looked at the tail here covers a record of a segment the tail left, as durable or counted past saving, exactly if it is durable already or that seal was tried by then |
| `TailFlush.WaitedFlushTells` | crates/reel/src/append/mod.rs:469-476 | of a segment the sealer was handed and has finished with, every Ok of a flush that looks then covers each record it ends behind |
| `TailFlush.HandedIsSealed` | crates/reel/src/append/sealer.rs:220-258 | just a segment the tail left is handed over, once, and it can be sealed from then on and not before |
| `TailFlush.SyncedIsNeverPast` | crates/reel/src/append/sealer.rs:98-102 | a segment left with everything up to its end synced never counts as past saving, whatever becomes of its seal |
| `TailFlush.TriedIsTold` | crates/reel/src/append/sealer.rs:89-112 | once a left segment's seal was tried, each record it ends behind is durable or the segment counts as past saving |
| `TailFlush.OkCoversItsOwn` | crates/reel/src/append/mod.rs:1032-1084 | an Ok covers every record that had landed on the segment the flush looked at itself |
| `TailFlush.Answers` | crates/reel/src/append/flush.rs:85-101 | a segment that can still be synced can always come to answer its caller Ok |
| `TailFlush.RollSlipsBy` | crates/reel/src/append/mod.rs:1114-1124 | a flush finds nothing to wait for, the tail rolls, and the flush answers Ok over a landed record that is neither durable nor counted |
| `TailPromises.PadUndone` | crates/reel/src/append/journal.rs:217-226 | padding that a failed write gives back leaves the space as it was, whatever landed between |
| `TailPromises.ClosedForGood` | crates/reel/src/append/mod.rs:606-630 | a segment that was closed takes no claim and no record any more, whether the close came back well or not |
| `TailPromises.OwedStays` | crates/reel/src/append/mod.rs:538-549 | what a caller is owed is what had landed when they asked, and no step changes it |
| `TailPromises.SyncedNeverFalls` | crates/reel/src/append/sealer.rs:321-342 | the mark of what is on the device never falls, and nothing leaves the device |
| `TailPromises.OneTurn` | crates/reel/src/append/flush.rs:86-119 | at most one caller holds the turn at the device |
| `TailPromises.NeverStranded` | crates/reel/src/append/sealer.rs:90-112 | a caller that waits and cannot go on, because it is neither covered, nor told of a break, nor offered the turn, has another at the device or a seal still to come |
| `TailPromises.AllSettled` | crates/reel/src/append/mod.rs:236-253 | with nobody holding the tail shared, all that is reserved has settled |
| `TailPromises.RangesApart` | crates/reel/src/append/mod.rs:1194-1235 | no two records that landed, and no record and open claim, share a byte |
| `TailCut.InOrderCutsNone` | crates/reel/src/append/mod.rs:702-785 | a run in which claims are turned away in order cuts no record that landed, though a failed padded journal write may give back room |
| `TailCut.SafeExactlyInOrder` | crates/reel/src/append/mod.rs:730-733 | turning a claim away cuts nothing in any continuation exactly if nothing was taken past the claim |
| `TailCut.PromptIsInOrder` | crates/reel/src/append/mod.rs:730-733 | where claiming and looking at the room are one step, every claim is turned away in order |
| `TailCut.SealCutsNoRecord` | crates/reel/src/append/mod.rs:236-253 | where they are one step, every landed record lies wholly below the seal's cut |
| `TailCut.LateLookCuts` | crates/reel/src/append/mod.rs:730-733 | a concrete run, with the room looked at late, whose seal cuts a landed record |
| `SealCrash.RunKeeps` | crates/reel/src/append/sealer.rs:21-73 | every step of a seal, done or failed half-way, keeps what is known at that point of it |
| `SealCrash.EveryCrashIsSafe` | crates/reel/src/append/sealer.rs:21-73 | after any attempts that failed before the cut, each leaving any part of what it did: until footer and mark are synced a crash leaves whole the rows that were on the device; from then on the reader finds that very footer at the end of the file, or by its mark where the last probe takes it in, and only otherwise reads the rows, all whole, those the seal wrote included |
| `SealCrash.SafeExactlyBeforeCut` | crates/reel/src/append/sealer.rs:136-165 | another attempt, whatever its footer, is safe at every crash point exactly if no earlier attempt went as far as the cut |
| `SealCrash.AttemptAfterCut` | crates/reel/src/append/sealer.rs:136-165 | for any two footers of which one, given a single byte of the other, is neither: a second attempt after a first that cut the rows, and a crash that leaves neither rows nor a footer that was written |
| `SealCrash.TwoAttemptsLoseAll` | crates/reel/src/append/sealer.rs:136-165 | the same with two concrete footers and one row |
| `SealReader.MarkReadsBack` | crates/reel/src/format/footer.rs:43-65 | a mark reads back the end and length it was made of |
| `SealReader.ReadsExactly` | crates/reel/src/index/recovery.rs:412-462 | of any bytes: a segment reads by the whole footer its last probe ends with, else by the whole footer a mark there with a right sum names, else from its rows; so no footer is read that is not whole |
| `SealReader.EndIsRead` | crates/reel/src/index/recovery.rs:1475-1514 | a file that ends with a footer is read by that footer |
| `SealReader.MarkIsRead` | crates/reel/src/index/recovery.rs:435-466 | a file whose mark is last but for zeros is read by the marked footer exactly if the mark lies in the last probe, and from its rows otherwise |
| `SealReader.MarkIsNoFooter` | crates/reel/src/index/recovery.rs:1475-1514 | a file that ends with a mark is not taken to end with a footer |
| `SealCrash.MarkWritten` | crates/reel/src/append/journal.rs:252-263 | the mark ends the block behind the rows with nothing but zeros behind it, where the reader looks, and the footer stays as it is |
| `SealCrash.TailWritten` | crates/reel/src/append/journal.rs:252-263 | the rows the seal writes lie behind the others once they came back whole, whatever becomes of the mark |
| `FooterSort.NumberOrders` | crates/reel/src/format/footer.rs:537-544 | strings of one length compare as the big-endian numbers they make |
| `FooterSort.HeadDecides` | crates/reel/src/format/footer.rs:537-544 | keys that share a prefix compare as their zero-padded eight-byte heads do, where the heads differ |
| `FooterSort.HeadsAgree` | crates/reel/src/format/footer.rs:559-570 | comparing heads first, then keys, then numbers is comparing by key and number |
| `FooterSort.InKeyOrder` | crates/reel/src/format/footer.rs:494-517 | exactly whether every row is past the one before it by key and number, in which case the rows are in the sort's order |
| `FooterSort.SharedPrefix` | crates/reel/src/format/footer.rs:520-534 | the longest prefix all keys share |
| `FooterSort.FooterPartition.Sort` | crates/reel/src/format/footer.rs:547-589 | the same rows, ordered by key and number |
| `FooterLookup.BoundWithin` | crates/reel/src/format/footer.rs:464-482 | every row of the window before the answer is below the bound and none from there on |
| `FooterLookup.Locate` | crates/reel/src/format/footer.rs:444-447 | the newest row of a key, or none exactly if the key has no row |
| `FooterLookup.Run` | crates/reel/src/format/footer.rs:430-441 | exactly the rows that share a row's key, first and last |
| `BlockLookup.EvenCutsCut` | crates/reel/src/format/block.rs:76-85 | the blocks of a span follow each other without a gap and none is empty |
| `BlockLookup.Landing` | crates/reel/src/format/block.rs:551-568 | the last block whose first key is at or below the key, or nothing: every block starts above it, or one could not be read |
| `BlockLookup.FindInSpan` | crates/reel/src/format/block.rs:525-548 | the key's newest row over all blocks; a miss, with every block readable, means the key has no row |
| `BlockLookup.LookupInSpan` | crates/reel/src/format/block.rs:473-486 | a found row is the key's newest; a key ruled out, or missed with every block readable, has no row |
| `BlockLookup.FindOffsetInSpan` | crates/reel/src/format/block.rs:489-522 | a row of the key at the offset; none, with every block readable, means no row of the key is there, in whatever block |
| `FooterAnswers.SealAndLookup` | crates/reel/src/format/block.rs:473-486 | rows pushed in any order, sorted, filtered and cut into blocks, answer a lookup with the newest row pushed of the key, or with none exactly if none was |
| `BlockLookup.BuiltCovers` | crates/reel/src/format/filter.rs:49-75 | a filter built over a partition's keys rules out none of its rows |
| `KeyFilter.WithBitSets` | crates/reel/src/format/filter.rs:63-66 | setting a bit of a byte sets it and changes no other |
| `KeyFilter.Build` | crates/reel/src/format/filter.rs:49-75 | no filter for no keys or no bits; otherwise a body of just the blocks the bits asked for take, the rounded number of probes, and exactly the bits some key's probes are at set |
| `KeyFilter.ProbesApart` | crates/reel/src/format/filter.rs:195-199 | the probes of one key are at different bits of its block |
| `KeyFilter.BlockShares` | crates/reel/src/format/filter.rs:190-192 | the blocks share the upper halves of the hashes out evenly and in order |
| `KeyFilter.MayHold` | crates/reel/src/format/filter.rs:78-100 | no exactly when a bloom filter with blocks and probes has one of the key's bits clear; any other filter rules nothing out |
| `KeyFilter.BuiltNeverRulesOut` | crates/reel/src/format/filter.rs:78-100 | no key that went in is ruled out, whatever the hash |
| `KeyFilter.RuledOutExactly` | crates/reel/src/format/filter.rs:78-100 | a key is ruled out exactly when one of its probes is where no key's probe was |
| `KeyFilter.ParseReadsBack` | crates/reel/src/format/filter.rs:113-163 | an encoded filter reads back with whatever follows it, an absent one as none |
| `KeyFilter.ParseRegion` | crates/reel/src/format/filter.rs:124-137 | the walk gives one filter per partition, as the specification does |
| `KeyFilter.RegionReadsBack` | crates/reel/src/format/filter.rs:113-137 | a whole region reads back every filter it was written with, in order |
| `KeyFilter.CutRegionReadsBack` | crates/reel/src/format/filter.rs:124-163 | any front part of a region reads back exactly the filters it holds whole, and none for the rest |

## Left out

- The io driver, descriptor caches, file allocation and zero-filling: only write, sync, cut and release steps with their failures are modelled.
- The index itself, the spot index, recovery and key-run files: an abstract newest-version map and the rebuild from durable copies stand for them, so the key-run clause of `should_carry` is taken as never holding a delete back.
- Purge floors, rot, peers' repair, scrubbing and volume tiers: deliberate losses or policy.
- Rates, clocks and pressure bands: time, with no logic of their own.
- `Hold.bytes` under races between shards, and `Hold::clear`: the accounting is proved for calls taken one after another.
- Checksums, the hash and mixing functions and LZ4: any function stands for each of them.
- Async twins of blocking calls, `InflightBudget`, `LsnCounter`, reports and counters: easy or plumbing.
- Engine open, checkpoints and manifests: orchestration of files.
- The footer's directory, widths and starts tables: a partition is its rows, so the byte offsets of rows are not modelled there.
- Entry tails inside packed rows: their four fields are numbers, not little-endian bytes, and an unpack gives rows, not one flat buffer.
- Cursors after a refused row: what a cursor holds once it has met a corrupt row is not stated.
- `has_pending_covers`: a pass that it holds back, or keeps from its retire, just does not take that step.
- HolesSafe.SafeExactlySpent: asks that nothing unpublished and newer landed for the key in another segment. A delete there is carried on (`HolesSafe.DeleteIsCarried`), but its pass may drop it if it copied the put itself; a put there goes with its segment (`CompactionAnswers.OrphanIsLost`).
- HolesSafe.EndsExactlyCovering: likewise, of durable records.
- `place_run` of a batch: a run claims and lands like one record of its whole span.
- CompactionAnswers.CrashNeverOlder: is stated for published records, because an unpublished one may go with its segment, and up to the first crash, because numbers not durable then may be drawn again.
- CompactionAnswers.SettledThroughRun: is stated for keys whose landed records are all published, for the same reason.
- A footer's inner layout: which bytes are a whole footer, by checksum and directory, is any predicate; its length, magic and place are modelled.
- Hold.Cache.constructor: is handed its empty shards, because how many a budget asks for is policy.
- Numbers.GetVarint: a number's eleventh byte is refused as in the code, and bits past the sixty-fourth are dropped as the code's shift drops them.
- Journal.Log.Resume: the zeros written to fill the last block are taken to land whole.
- BlockLookup.FindInSpan: a block that cannot be read any more makes the lookup a miss, as in the code, so nothing is stated of the key then.
- BlockLookup.FindOffsetInSpan: likewise.
- PrefixSeek.Seek: on bytes that are not what rows pack to, only that the search ends is stated.
