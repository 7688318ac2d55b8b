# Verified model of the flat-file state commitment engine

The engine keeps an Ethereum state trie as a RAM frontier over subtree records packed
into a log-structured file.  Snapshots, background garbage collection, checkpoints, block
application with inverse diffs and ordered cursors all work on that structure.  This
project models its logic in Dafny and proves what it promises, for all inputs, all runs
and all reachable states.

`dafny verify dfyconfig.toml` checks everything.  The files, by part:

* **Storage reclamation** - `Regions` (the region allocator as a value with operations, and
  as the class `RegionAlloc` that updates its fields in place), `RegionLife` (the way of a dead
  region from its last unit to the free list), `Reclaim` (the engine as a
  state machine of 21 steps at the granularity of locks and system calls: reserve,
  positioned write, attach, detach, evacuate, pin, clone, unpin, collect, install,
  checkpoint, prefetch, drain, crash and reopen), `ReclaimSteps` (every step keeps the
  invariant), `ReclaimSafety` (what follows for whole runs), `ReclaimEffects` (what each step
  does, and that records can always be moved and regions always come back).
* **Packing** - `Packer`, `FlatFile` (the serial and the parallel batch writer),
  `BatchRead`, `RegionScan`, `RegionHistory`, and `PackerTiles`, which shows that what the packer
  reserves is a step of the reclamation machine.
* **Record trie** - `Trie` (insert and delete), `TrieLaws` and `TrieHistory` (both are exact
  point updates; the canonical shape is unique), `LeafOps` (what the leaf operations mean),
  `TrieRoot` (the root equals that of the reference builder; histories do not matter),
  `YellowPaper` (the root as Appendices C and D of the Ethereum Yellow Paper define it, written
  down independently, and the engine's equality with it).
* **Record codec** - `Codec`, `CodecLaws`, `CodecWriter`, `WireFormat` (the format byte by
  byte).
* **Frontier** - `Frontier`, `FrontierFlatten` (every operation commutes with splicing the
  frontier back into one record trie), `FrontierInvariants` (memos, stored paths, pointer
  installs), `FrontierWalk` (the walks as the source runs them, with the depth computed from
  the length of the prefix), `FrontierNet` (net updates through the frontier),
  `FrontierRuns` (whole runs), `Promotion` (when records are split), `PlainStorage` (storage
  tries hold plain values).
* **Blocks** - `BlockOps` (one-by-one, net and inverse semantics), `BlockNormalize` (the
  normalising loop with its index), `BlockRecord` (a net update on one record),
  `BlockTrie` (whole blocks on the record trie), `FrontierBlock` (whole blocks on the
  frontier, fanned out over sixteen subtrees or one by one), `StateRoot` (the root after a
  block is the state root of the world it leaves).
* **Cursors** - `CursorOrder`, `Cursor` (leaves), `BranchCursor` (branch positions).
* **Code log** - `CodeLog`.

Keccak, RLP and the account encoding are function parameters (`Crypto`, `Keccak`).  Which
record is promoted, split or kept on disk is an arbitrary function of the record
(`Policy`), so the theorems hold for every tuning of the size thresholds, under the
conditions they state.

Three promises turn out to hold only under a condition, and the exact condition is proved:

* The walks take a prefix of exactly 64 nibbles for the root of a storage trie
  (src/lib.rs:7502-7504; the comment above it calls such account prefixes impossible in
  practice).  With records large enough to be promoted at full depth, a frontier branch
  sits at 63 nibbles and its slots at 64.  An insert into such a free slot, or one that splits a
  promoted account at its last nibble, reports success and loses the key; a delete that
  should act on a promoted account there reports absence (`FrontierWalk.WalkInsertIsExact`,
  `WalkDeleteIsExact`, `DeepInsertSlips`, `DeepIsReached`).  `FrontierRuns.StepCommutes` and
  `RunOkIffClear` say that a step, and a run, does what it should if and only if it meets no
  such slot.  Net updates, hence whole blocks, use the prefix length itself and never slip.

* Normalising a block loses an account in one family of blocks (`BlockOps.NetRefines`,
  `BlockOps.PhantomExample`): a missing account whose slots are written and all taken
  back, with no account operation in the block.
* A block's inverse fails to restore one family (`BlockOps.ApplyThenInverse`,
  `BlockOps.RewriteExample`): the block wipes an account and leaves a slot written that
  the account held before, because the prior value is read after the wipe.

Two asymmetries are local: the writer accepts nibble paths up to 255, the readers only up
to 128 (`CodecLaws.PathAt`); and a code of 4 GiB or more is stored under a length that
wraps, so it is not read back (`CodeLog.CodeStore.Put`).

## Model

| member | source | states |
|---|---|---|
| Regions.RegionAlloc.Reserve | src/lib.rs:641-655 | the in-place allocator reserves at the unit and leaves the state that `Allocated` describes, opening a new head exactly when the run does not fit |
| Regions.RegionAlloc.OpenHead | src/lib.rs:618-630 | pops a free region or extends the file, and marks the region written since the last checkpoint |
| Regions.RegionAlloc.Free | src/lib.rs:658-681 | a region that loses its last unit and is not the head goes to exactly one list: the hold with the current generation if pins are live, else the stage if it is fresh, else quarantine; otherwise no list changes |
| Regions.RegionAlloc.OnPersisted | src/lib.rs:687-698 | quarantine is empty afterwards, its regions are on the hold with the current generation if pins are live and on the stage otherwise, and no region counts as fresh |
| Regions.RegionAlloc.OldestPin | src/lib.rs:706-707 | finds the least live generation, or none |
| Regions.RegionAlloc.ReleaseSnapHold | src/lib.rs:706-719 | the loop keeps exactly the regions a live pin still blocks and routes the rest |
| Regions.RegionAlloc.Pin | src/lib.rs:722-726 | a pin takes a generation above all earlier ones |
| Regions.RegionAlloc.PinAt | src/lib.rs:731-733 | a clone adds a pin at the same generation |
| Regions.RegionAlloc.Unpin | src/lib.rs:736-744 | one pin of the generation goes and eligible regions are released |
| Regions.RegionAlloc.DrainStaged | src/lib.rs:748-750 | staged regions become free, in order |
| Regions.ParkedIffListed | src/lib.rs:533-592 | a region is parked exactly if it is on one of the four lists |
| Regions.LiveIsGuarded | src/lib.rs:658-681 | a region with a live unit is on no list, so nobody's units in it can be rewritten |
| Regions.RouteKeepsRegions | src/lib.rs:706-719 | routing held regions neither loses nor duplicates one |
| Regions.RouteIsExact | src/lib.rs:706-719 | the hold keeps exactly the blocked regions; the stage gets exactly the unblocked fresh ones and quarantine exactly the unblocked others |
| Regions.AllocatedKeepsOk | src/lib.rs:641-655 | reserving keeps the lists disjoint, duplicate-free, dead and without the head |
| Regions.AllocatedIsUnused | src/lib.rs:618-655 | a reserved run lies in one region and touches no unit anyone may still read before the next drain |
| Regions.FreedKeepsOk | src/lib.rs:658-681 | freeing keeps the allocator's invariant |
| Regions.FreedKeepsProtection | src/lib.rs:658-681 | freeing weakens no protection: snapshots, the checkpoint and the read-ahead cache keep what they rely on |
| Regions.PersistedKeepsOk | src/lib.rs:687-698 | a checkpoint keeps the allocator's invariant |
| Regions.PersistedKeepsProtection | src/lib.rs:687-698 | a checkpoint keeps every pin's protection and makes everything live durable |
| Regions.UnpinnedKeepsOk | src/lib.rs:736-744 | unpinning keeps the allocator's invariant |
| Regions.UnpinnedKeepsProtection | src/lib.rs:706-744 | dropping one pin keeps what every remaining pin relies on, in whatever order pins come and go |
| Regions.DrainedKeepsProtection | src/lib.rs:748-750 | draining harms only readers that alias a staged region |
| Regions.ReopenedOk | src/lib.rs:1760-1828 | the allocator rebuilt on open satisfies the invariant |
| RegionLife.FreedIsExact | src/lib.rs:658-681 | a region that dies was on no list and is then on exactly one, chosen by pins and freshness; any other free leaves the lists alone; only its own count goes down |
| RegionLife.ReservedCounts | src/lib.rs:641-655 | a reservation credits exactly its units to the head |
| RegionLife.ReservedIsExact | src/lib.rs:618-655 | it stays on the head while it fits, reopens the last free region when there is one without growing the file, and grows the file by one region when there is none |
| RegionLife.ParkingHoldsNeeded | src/lib.rs:658-698 | what a free or a checkpoint puts on hold waits for a pin that is live |
| RegionLife.PinningHoldsNeeded | src/lib.rs:722-733 | a pin or a clone keeps it so |
| RegionLife.UnpinningHoldsNeeded | src/lib.rs:706-744 | after an unpin nothing is held that no live pin needs |
| RegionLife.EveryParkedRegionComesBack | src/lib.rs:687-750 | with no pin live, one checkpoint and one drain make every parked region free, each once |
| RegionLife.FreshRegionComesBack | src/lib.rs:668-679 | a fresh region that dies unpinned needs only the drain |
| RegionLife.PersistedIsExact | src/lib.rs:687-698 | which lists a checkpoint moves, and that nothing stays quarantined or fresh |
| ReclaimSteps.ReserveKeepsInv | src/lib.rs:1076-1124 | reserving a packed run keeps the whole invariant |
| ReclaimSteps.WriteKeepsInv | src/lib.rs:1117-1120 | a positioned write, at any later time, keeps it |
| ReclaimSteps.DetachKeepsInv | src/lib.rs:1258-1262 | dropping a record from the frontier and freeing its units keeps it |
| ReclaimSteps.PinKeepsInv | src/lib.rs:2877-2897 | taking a snapshot keeps it |
| ReclaimSteps.CloneKeepsInv | src/lib.rs:3218-3227 | cloning a snapshot keeps it |
| ReclaimSteps.UnpinKeepsInv | src/lib.rs:3229-3233 | dropping a snapshot keeps it |
| ReclaimSteps.CollectReadKeepsInv | src/lib.rs:3098-3186 | a collector copying a record of its frozen view keeps it |
| ReclaimSteps.PrefetchKeepsInv | src/lib.rs:998-1003 | filling the read-ahead cache keeps it |
| ReclaimSteps.CommitKeepsInv | src/lib.rs:1833-1881 | committing a manifest keeps it |
| ReclaimSteps.CrashKeepsInv | src/lib.rs:1760-1828 | after a crash that loses every unsynced write arbitrarily, the reopened engine satisfies the invariant again |
| ReclaimSteps.StepKeepsInv | src/lib.rs:641-750 | every enabled step of every actor keeps the invariant |
| ReclaimSteps.FreeCounts | src/lib.rs:658-681 | freeing an owned record takes exactly its units off the region's count |
| ReclaimSafety.RunInv | src/lib.rs:641-750 | the invariant holds at every point of every run |
| ReclaimSafety.WriteHitsNobody | src/lib.rs:1044-1069 | no positioned write touches a unit that the frontier, a live snapshot, the last durable manifest or the cache names |
| ReclaimSafety.ViewIsFrozen | src/lib.rs:2877-2897 | a live generation's frontier never changes |
| ReclaimSafety.SnapshotIsolation | src/lib.rs:3218-3233 | while a generation stays pinned, every slot of its frozen frontier reads the same bytes, even when newer pins come and go before older ones |
| ReclaimSafety.CheckpointReads | src/lib.rs:1833-1881 | every record the last durable manifest names is intact on disk in every reachable state |
| ReclaimSafety.ManifestSurvives | src/lib.rs:1833-1881 | only a commit replaces the manifest |
| ReclaimSafety.CrashRestoresCheckpoint | src/lib.rs:1760-1881 | commit, anything short of another commit, crash, open: the frontier and every slot read exactly as at the commit |
| ReclaimSafety.ReadsUnchanged | src/lib.rs:2692-2738 | no step but an edit of the slot changes what it reads, installs of collected copies and evacuations included |
| ReclaimSafety.InstallMatchesCollected | src/lib.rs:2692-2738 | an old pointer that still matches at install is the very record collected, never a reused place |
| ReclaimSafety.CachedReadAgrees | src/lib.rs:991-1020 | a read served by the read-ahead cache is the read the file would serve |
| ReclaimSafety.CachedSnapshotRead | src/lib.rs:991-1020 | the same for every live snapshot: a cached read of its frozen frontier is the promised read |
| ReclaimSafety.LiveIsConserved | src/lib.rs:533-592 | each region's live count is the number of its units held by frontier records and uninstalled copies, no two sharing a unit |
| ReclaimSafety.FreeNeverSaturates | src/lib.rs:658-681 | freeing a frontier record never goes below zero |
| ReclaimSafety.DropNeverSaturates | src/lib.rs:658-681 | nor does dropping a collected copy that was not installed |
| ReclaimSafety.RecomputeLive | src/lib.rs:8338-8360 | the recount on open gives each region the number of its units the frontier covers |
| ReclaimEffects.InstallIsExact | src/lib.rs:2692-2738 | if the live pointer is still the collected one, the slot swings to the copy and the old record's units come off its region's count; otherwise the copy's do and the frontier stays; no other slot moves |
| ReclaimEffects.EvacuateIsExact | src/lib.rs:2599-2680 | evacuating swings the slot to the copy and takes the old units off the count |
| ReclaimEffects.AttachIsExact | src/lib.rs:3656-3661 | attaching uses up the written record and changes no count |
| ReclaimEffects.DetachIsExact | src/lib.rs:1258-1262 | detaching takes exactly the record's units off the count |
| ReclaimEffects.ReserveIsExact | src/lib.rs:1076-1124 | a reservation makes exactly its records pending, at units nobody owned |
| ReclaimEffects.WriteIsExact | src/lib.rs:1117-1120 | after the positioned write every record of the run reads back, and no other unit changed |
| ReclaimEffects.ViewsAreHandled | src/lib.rs:2877-2897 | a generation has a frozen frontier exactly while some handle holds it |
| ReclaimEffects.PinIsExact | src/lib.rs:2877-2897 | a new snapshot freezes the frontier of its moment under a new generation |
| ReclaimEffects.CloneIsExact | src/lib.rs:3218-3227 | a clone is a new handle of its original's generation |
| ReclaimEffects.UnpinIsExact | src/lib.rs:3229-3233 | dropping a handle drops its frozen frontier exactly when no other handle shares it |
| ReclaimEffects.CollectReadIsExact | src/lib.rs:3098-3186 | a collector copies out what its frozen slot holds |
| ReclaimEffects.PrefetchIsExact | src/lib.rs:998-1003 | prefetching caches the very record the slot points at |
| ReclaimEffects.DrainsAreExact | src/lib.rs:1004-1020 | a drain makes exactly the staged regions free |
| ReclaimEffects.SyncIsExact | src/lib.rs:1833-1881 | after the sync nothing is unsynced and nothing else changed |
| ReclaimEffects.PersistDoneIsExact | src/lib.rs:687-698 | a finished checkpoint leaves no region quarantined or fresh and loses none |
| ReclaimEffects.EditRuns | src/lib.rs:1044-1069 | any record can be written and attached at a free slot, and any slot given up, between checkpoints |
| ReclaimEffects.EvacuationRuns | src/lib.rs:2599-2680 | any record of the frontier can be copied elsewhere and its slot swung there |
| ReclaimEffects.CollectionRuns | src/lib.rs:3098-3186 | pin, copy out, write, install and unpin run for any record and leave it at a new place with the same bytes |
| ReclaimEffects.DrainsAndCrashesRun | src/lib.rs:1004-1020 | an empty cache lets writers and collectors drain, and a crash may come at any time |
| ReclaimEffects.RunHoldsNeeded | src/lib.rs:706-744 | in every reachable state a region is held only for a pin that is live |
| ReclaimEffects.CheckpointFreesAll | src/lib.rs:1833-1881 | from every reachable state without snapshots, one checkpoint and clearing the cache run and make every parked region free |
| Packer.PackRun | src/lib.rs:1085-1097 | the packing loop takes exactly as many records as fit one region, at least one |
| Packer.FillRun | src/lib.rs:1104-1116 | the buffer holds every record framed and padded to units, zeros behind, and the pointers are dense |
| Packer.PlanAvoids | src/lib.rs:1076-1124 | no batch touches a unit taken before it |
| Packer.PlanIsDisjoint | src/lib.rs:1076-1124 | every run of a batch lies in one region and within the allocator's bound, with or without direct-I/O padding, and no two overlap |
| FlatFile.FlatFile.DrainStagedIfUnaliased | src/lib.rs:1016-1020 | staged regions become free exactly when the read-ahead cache is empty |
| FlatFile.FlatFile.WriteBatch | src/lib.rs:1076-1124 | after the drain in front, file, allocator and pointers become what the plan says; an oversized payload or an address past 32 bits is an error |
| FlatFile.FlatFile.WriteBatchParallel | src/lib.rs:1135-1214 | same pointers, file and allocator as the serial writer, whatever order the runs are written in |
| FlatFile.MergeOne | src/lib.rs:1179-1212 | writing disjoint runs in any order merges exactly their images |
| BatchRead.BatchReadsBack | src/lib.rs:1022-1214 | after a batch the pointer of every payload leads to exactly that payload, and no byte outside its runs changed |
| RegionScan.PtrsTile | src/lib.rs:1104-1116 | the pointers of a run tile it without gap or overlap, in order |
| RegionScan.BatchPointers | src/lib.rs:1076-1124 | one pointer per payload, each inside one region, pairwise disjoint |
| RegionScan.ScanRegion | src/lib.rs:7097-7132 | the walk reports what `ScanFrom` describes |
| RegionScan.ScanRecovers | src/lib.rs:7097-7132 | the scan of a region reports first, in order, exactly the non-empty records of its layout, whatever stale bytes follow |
| RegionHistory.AppendedOk | src/lib.rs:641-655 | appending a run keeps what every region holds since it was opened |
| RegionHistory.BatchedIsPlan | src/lib.rs:1076-1124 | appending a batch run by run is what the batch writers do to allocator and file |
| RegionHistory.AccountingIsBooks | src/lib.rs:658-750 | frees, checkpoints, pins, clones, unpins and drains keep the allocator's invariant and leave the write position alone |
| RegionHistory.ScanAfterHistory | src/lib.rs:7097-7132 | after every history of batches and of frees, pins, checkpoints and drains, scanning a region finds every non-empty record written since it was opened |
| RegionHistory.WrittenIsHit | src/lib.rs:7116-7130 | a record just written is reported at its own pointer with its payload |
| PackerTiles.RunTiles | src/lib.rs:1085-1121 | a packed run tiles its units with framed records at its pointers |
| PackerTiles.PackedRunIsReserved | src/lib.rs:1076-1124 | what the packer reserves is an enabled step of the reclamation machine |
| TrieLaws.InsertSpec | src/lib.rs:5375-5466 | insert puts exactly the resolved item at exactly the key, keeps the canonical shape and fails exactly when the operation does not fit what is there |
| TrieLaws.ResolveCanonical | src/lib.rs:5469-5536 | a leaf operation leaves a canonical storage trie |
| TrieLaws.GetPrepend | src/lib.rs:5571-5600 | re-rooting a node by an edge moves every key by that edge |
| TrieLaws.CanonicalPrepend | src/lib.rs:5571-5600 | and keeps the canonical shape |
| TrieHistory.DeleteSpec | src/lib.rs:5605-5683 | delete reports Absent exactly when there is nothing to do, Removed exactly when the key was the last one, and otherwise changes exactly the key |
| TrieHistory.ApplyCanonical | src/lib.rs:5697-5765 | a slot delete or wipe leaves a canonical storage trie |
| TrieHistory.CollapseSpec | src/lib.rs:5656-5675 | a branch left with one child collapses to a canonical node with the same lookups |
| TrieHistory.CanonicalIsUnique | src/lib.rs:5375-5683 | two canonical tries with the same lookups are equal |
| LeafOps.PutMeans | src/lib.rs:5469-5536 | setting an account replaces three fields and no slot, setting a slot changes that slot alone or creates an empty account with it, setting a value replaces a value; which operations fit is exact |
| LeafOps.CutMeans | src/lib.rs:5697-5765 | a slot delete takes that slot alone and is absent exactly when the slot is, a wipe takes all and is absent exactly when there is none |
| LeafOps.ActMeans | src/lib.rs:9460-9493 | the same for accounts with their slots as a map |
| TrieRoot.HexPrefixInjective | src/eth.rs:72-89 | no two paths or node kinds share a hex-prefix encoding |
| TrieRoot.NodeRefIsReference | src/eth.rs:110-163 | every node's reference is that of the reference encoding of its entries, inline or hashed |
| TrieRoot.RootIsReference | src/eth.rs:131-191 | the engine's root is the reference root of the sorted list of stored keys and values |
| TrieRoot.EntriesAreLookups | src/eth.rs:177-191 | the entries of a trie are exactly its lookups |
| TrieRoot.RanRepresents | src/lib.rs:5375-5683 | after every sequence of inserts and deletes the trie represents exactly the final map |
| TrieRoot.RunExists | src/lib.rs:5375-5683 | every sequence of value inserts and deletes of keys of one length runs without an error |
| TrieRoot.HistoryIndependent | src/lib.rs:5375-5683 | histories with the same final contents end in the same trie |
| TrieRoot.HistoryRoot | src/eth.rs:131-191 | after any history the root is the reference root of the final map |
| YellowPaper.HexPrefixBytes | src/eth.rs:72-89 | the flag nibble is 2 for a leaf plus 1 for an odd path, beside it the odd nibble or zero, then the remaining nibbles |
| YellowPaper.HexPrefixIsHp | src/eth.rs:72-89 | the path encoding is HP of Appendix C, byte for byte |
| YellowPaper.EncodeHexPrefix | src/eth.rs:72-89 | the push loop yields that encoding |
| YellowPaper.NodeIsC | src/eth.rs:108-163 | every node's reference is that of c over what it holds: leaf, extension or branch as Appendix D says, inline below 32 bytes and hashed from there on |
| YellowPaper.RootIsYellowPaper | src/eth.rs:177-191 | the engine's root is the root of Appendix D over the finite map the trie holds |
| YellowPaper.HistoryIsYellowPaper | src/eth.rs:177-191 | after any history of inserts and deletes the root is that of the final map |
| Codec.SizeIsExact | src/lib.rs:6397-6428 | the size pass predicts exactly the bytes written, raw parts included |
| Codec.BitmapBits | src/lib.rs:6503-6510 | bit `i` of the branch bitmap is set exactly if child `i` is there |
| CodecLaws.PathAt | src/lib.rs:6549-6564 | a written path is read back exactly if it has at most 128 nibbles, and refused otherwise |
| CodecLaws.ReadsBack | src/lib.rs:6653-6704 | the eager reader returns the node written and stops right behind it |
| CodecLaws.HeaderRef | src/lib.rs:6869-6894 | the header alone yields the node's reference |
| CodecLaws.LensAt | src/lib.rs:6807-6810 | the length table is read back as the children's lengths |
| CodecLaws.LazyReadsBack | src/lib.rs:6787-6864 | the lazy reader stops at the same place, expands to the same node and is written back as the same bytes |
| CodecLaws.RecordRoundTrip | src/lib.rs:6448-6481 | eager, lazy and size pass agree on every well-formed subtree record |
| CodecLaws.PrefixReadsBack | src/lib.rs:6942-6944 | reading the prefix alone gives the path the record was written under |
| WireFormat.WrittenSpells | src/lib.rs:6483-6564 | what each byte of a node is: tag, counted path, little-endian lengths and nonce, big-endian balance, bitmap, length table, children in order |
| WireFormat.RecordSpelled | src/lib.rs:6456-6470 | a record is its prefix path followed by its node |
| WireFormat.KidsStayRaw | src/lib.rs:6807-6864 | the lazy reader leaves every leaf, extension and branch below a branch serialised, as a slice of the record |
| CodecWriter.Writer.WriteNode | src/lib.rs:6483-6564 | the growing output ends with exactly the node's encoding; the node is refused exactly when a path exceeds 255 nibbles |
| CodecWriter.Writer.WriteBranch | src/lib.rs:6499-6528 | reserving the length table and filling it in afterwards gives the encoding with the table in place |
| FrontierFlatten.PromoteFlattens | src/lib.rs:5800-5868 | promoting a record does not change what it flattens to |
| FrontierFlatten.SettleFlattens | src/lib.rs:5899-5934 | nor does splitting a record or lifting an account's storage |
| Promotion.SettleIsExact | src/lib.rs:5800-5934 | a record is split if and only if the policy asks and it has a branch to lift; an account keeps its fields; every part of a split fits or has nothing left to lift; otherwise the record is kept whole where the policy places it |
| Promotion.EditsSplit | src/lib.rs:4569-4580 | a record edited by an insert or a net update is split exactly then |
| Promotion.CreationsSplit | src/lib.rs:4551-4580 | so are new records of net updates and demoted accounts |
| FrontierFlatten.InsertCommutes | src/lib.rs:3665-3760 | the insert that goes by the rest of the key succeeds exactly when the insert on the flattened trie does, and flattens to its result; `FrontierWalk.WalkInsertIsExact` says when the source's walk is this one |
| FrontierFlatten.SlotInsertCommutes | src/lib.rs:3541-3663 | the same for a slot: empty, RAM, disk record, cached record, promoted account |
| FrontierFlatten.DeleteCommutes | src/lib.rs:3782-3898 | the delete that goes by the rest of the key reports and leaves what the delete on the flattened trie does; `FrontierWalk.WalkDeleteIsExact` says when the source's walk is this one |
| FrontierFlatten.SlotDeleteCommutes | src/lib.rs:3904-4048 | the same for a slot, with demotion of a promoted account |
| FrontierFlatten.RehomeOk | src/lib.rs:4053-4093 | re-homing a collapse survivor puts the collapsed edge in front of it |
| FrontierFlatten.SurvivorIsRecord | src/lib.rs:4097-4117 | the last survivor of a promoted storage trie is always a record |
| FrontierInvariants.InsertKeepsMemos | src/lib.rs:3665-3760 | insert leaves no stale hash memo |
| FrontierInvariants.DeleteKeepsMemos | src/lib.rs:3782-3898 | delete leaves no stale hash memo |
| FrontierInvariants.InsertKeepsPrefixes | src/lib.rs:3541-3760 | insert keeps every record filed under its own full path |
| FrontierInvariants.DeleteKeepsPrefixes | src/lib.rs:3782-4093 | delete keeps it, through collapse, re-homing and demotion |
| FrontierInvariants.StoredPathFindsRecord | src/lib.rs:7510-7541 | looking up the path a record stores returns exactly its pointer |
| FrontierInvariants.InstallIffFound | src/lib.rs:7043-7081 | a pointer install succeeds exactly where the lookup finds a pointer, and the lookup then finds the new one |
| FrontierInvariants.InstallKeepsAll | src/lib.rs:7043-7081 | an install changes no content, hash, memo or stored path |
| FrontierInvariants.HashIsFlatRoot | src/lib.rs:7580-7614 | the frontier's hash is the root of the flattened trie when no frontier child is short enough to be inlined |
| FrontierWalk.InsertWalks | src/lib.rs:3541-3760 | in account space and in storage, the walk over the whole key does what the insert by the rest of the key does, unless it slips |
| FrontierWalk.DeleteWalks | src/lib.rs:3782-4048 | the same for delete |
| FrontierWalk.WalkInsertIsExact | src/lib.rs:3541-3760 | the insert walk is the right insert if and only if it places nothing in an account-space slot at 64 nibbles; otherwise it reports success, leaves no trie and the key is not found |
| FrontierWalk.WalkDeleteIsExact | src/lib.rs:3782-4048 | the delete walk is the right delete if and only if it has nothing to do on a promoted account at 64 nibbles; otherwise it reports absence |
| FrontierWalk.StoredDepthIsRight | src/lib.rs:7488-7508 | for every record of a frontier, the depth read off its stored path is its depth in its own trie, account or storage |
| FrontierWalk.DeepInsertSlips | src/lib.rs:3656-3661 | next to 00..00 and 00..01, promoted at full depth, inserting 00..02 reports success and loses it |
| FrontierWalk.DeepIsReached | src/lib.rs:5800-5868 | that frontier is what inserting 00..01 next to 00..00 and 10..00 leaves when their record is promoted |
| FrontierNet.NetCommutes | src/lib.rs:4731-5178 | a net update through the frontier reports and leaves what the net update on the flattened trie does, and keeps memos and stored paths exact |
| FrontierNet.NetDoes | src/lib.rs:4731-4890 | creation, extension split, branch collapse and re-homing change exactly the one account as its net update says |
| FrontierNet.SlotNetDoes | src/lib.rs:4898-5016 | the same for a slot: creation where it is free, one rewrite of the record, split of another promoted account |
| FrontierNet.PromotedNets | src/lib.rs:5018-5177 | on a promoted account: delete, wipe back to record form, field set, slot writes in its storage frontier, demotion half-way through the writes |
| FrontierRuns.SpillKeepsAll | src/lib.rs:6978-7038 | spilling cached records changes no content, hash, memo or stored path |
| FrontierRuns.SpillIsExact | src/lib.rs:6978-7038 | every cached record picked is on disk at its pointer with the same root and contents, every other record is what it was |
| FrontierRuns.HashedKeepsAll | src/lib.rs:7580-7614 | hashing through memos answers the bottom-up recomputation and only fills memos |
| FrontierRuns.StepCommutes | src/lib.rs:3541-4167 | a step keeps the frontier sound, commutes with flattening and fails exactly when the record step does or would leave a single key, if and only if it meets no account-space slot at 64 nibbles |
| FrontierRuns.RunOkIffClear | src/lib.rs:3541-4167 | every step of a run is right if and only if no step of the run meets such a slot |
| FrontierRuns.RunCommutes | src/lib.rs:3541-5178 | a run that meets none, of inserts, deletes, net updates, installs, spills and hashing, flattens to what the same edits do to one record trie, with promotion decided arbitrarily |
| FrontierRuns.EditsDetermine | src/lib.rs:3541-4167 | the record run is determined by the edits alone |
| FrontierRuns.LayoutNeverShows | src/lib.rs:7573-7614 | such runs with the same edits from the same contents end with the same contents, and with the same root when no frontier child is inlined |
| FrontierRuns.RunHashIsExact | src/lib.rs:7573-7614 | after every such run, net updates included, the memoised root equals its recomputation |
| FrontierRuns.RunFindsRecords | src/lib.rs:7043-7541 | after every such run each record's stored path finds its pointer, and an install there cannot fail |
| BlockNormalize.Normalize | src/lib.rs:4230-4302 | every touched account's net update is the fold of its own operations; the slot index never goes stale |
| BlockNormalize.PutIndexed | src/lib.rs:4274-4297 | writing through the index puts the slot in its old place or at the end, and keeps the index exact |
| BlockNormalize.Drain | src/lib.rs:4251-4263 | draining an account's slots forgets exactly their places |
| BlockOps.RunBlockAt | src/lib.rs:9460-9493 | keys do not interfere in the one-by-one semantics |
| BlockOps.NetIsKnown | src/lib.rs:4230-4302 | a net update has distinct slots, wipes exactly if the block wipes or deletes, keeps exactly if nothing sets the account, and holds exactly the standing writes |
| BlockOps.NetRefines | src/lib.rs:4230-4302 | wipe, outcome, then slots gives what running the operations one by one gives, if and only if the block is no phantom for the account |
| BlockOps.BlockRefines | src/lib.rs:4230-4302 | the same for whole blocks over all keys |
| BlockOps.PhantomExample | src/lib.rs:4264-4298 | a write and its delete on a missing account: one by one leaves an empty account, the net update none |
| BlockOps.InverseRestores | src/lib.rs:4444-4547 | running the inverse operations restores the account, if and only if the update does not wipe it and write a slot it held |
| BlockOps.InverseNoPhantom | src/lib.rs:4444-4547 | an inverse is never a phantom, so normalising it loses nothing |
| BlockOps.ApplyThenInverse | src/lib.rs:4444-4547 | apply and undo, both through net updates, restore the account if and only if the block does not wipe it and rewrite a slot it held |
| BlockOps.BlockInverse | src/lib.rs:4444-4547 | the same for whole blocks |
| BlockOps.RewriteExample | src/lib.rs:4478-4520 | wiping an account and rewriting a slot it held is not undone |
| BlockRecord.CollectIsLookups | src/lib.rs:4317-4352 | collecting a storage trie lists exactly its slots with their values |
| BlockRecord.WriteSlot | src/lib.rs:4510-4542 | one slot write does to the account what the operation says and pushes its undo |
| BlockRecord.NetNodeSpec | src/lib.rs:4444-4547 | a net update on a record changes exactly the account at the key, to what its item becomes, and reports Removed exactly when that account was the last |
| BlockRecord.ApplyNetInRecord | src/lib.rs:4444-4547 | the record's account becomes that of the net update, every other key stays, the inverse is exact, and no change is reported only if nothing changed |
| BlockTrie.ApplyBlock | src/lib.rs:1961-2056 | the whole block on the trie: every account becomes that of its net update and the inverse block is well formed and exact |
| BlockTrie.ShowsUnique | src/lib.rs:4444-4547 | one state of accounts and slots, one trie |
| BlockTrie.BlockUndone | src/lib.rs:4444-4547 | a block followed by its inverse gives back the very same trie, if and only if it wipes no account and rewrites a slot it held |
| BlockTrie.BlockIsSequential | src/lib.rs:4230-4302 | the trie after the net block is the trie after the one-by-one block, if and only if the block is no phantom |
| FrontierBlock.SlotBlockSpec | src/lib.rs:1999-2007 | a subtree that takes its own accounts' updates, with no other subtree in sight, holds each account as its update leaves it |
| FrontierBlock.CollapseAny | src/lib.rs:2016-2041 | collapsing the top branch once, after all deletions, leaves a sound frontier with the same lookups, or nothing |
| FrontierBlock.FanOutIsBlock | src/lib.rs:1961-2041 | the fan-out over sixteen subtrees leaves the one trie of the world the block leaves and keeps every frontier invariant; it fails exactly when the block leaves a single account |
| FrontierBlock.SerialIsBlock | src/lib.rs:2043-2055 | so does the one-by-one application on other tops, whenever it succeeds |
| FrontierBlock.SerialSucceeds | src/lib.rs:2043-2055 | one by one succeeds exactly when no prefix of the updates leaves a single account, and leaves the world of all of them |
| FrontierBlock.FrontierUndone | src/lib.rs:1961-2056 | a block and then an exact inverse block through the frontier give back its contents, if and only if the block wipes no account and rewrites a slot it held |
| StateRoot.ShownRoot | src/lib.rs:5199-5220 | a trie that shows a world has the Yellow Paper's state root of it: every account's nonce, balance, storage root and code hash, over all accounts |
| StateRoot.BlockRoot | src/lib.rs:1961-2056 | the hash the engine answers after a block is the state root of the world the block leaves, when no frontier child is inlined |
| CursorOrder.KeySuccessor | src/cursor.rs:57-67 | plus one on big-endian numbers; none exactly when every byte is full |
| CursorOrder.LessIsNumber | src/cursor.rs:90-97 | the order of equally long paths is the order of their numbers |
| CursorOrder.NibblesOfPacked | src/cursor.rs:69-76 | packing nibbles into a key and unpacking them are inverse |
| CursorOrder.SuccessorIsNext | src/cursor.rs:57-67 | not below the successor means above the key |
| Cursor.RelDecides | src/cursor.rs:90-97 | the three relations of a subtree to the target decide what the comparison of paths decides |
| Cursor.Walk.NodeSeek | src/cursor.rs:105-192 | finds the least leaf of the subtree not below the target, surfaces that leaf, and restores the path buffer |
| Cursor.Walk.RamSeek | src/cursor.rs:198-240 | the same over the frontier |
| Cursor.Walk.ChildSeek | src/cursor.rs:242-281 | the same for a slot, promoted accounts included |
| Cursor.AccountCursor.Seek | src/cursor.rs:297-328 | returns the least stored key not below the target, or nothing |
| Cursor.AccountCursor.Next | src/cursor.rs:330-338 | returns the least stored key above the last one, or nothing |
| Cursor.AccountCursor.ListAll | src/cursor.rs:297-338 | `seek(0)` and `next` until nothing is left comes to an end and returns exactly the stored keys, each once, ascending, each with what the trie holds |
| Cursor.ListingIsComplete | src/cursor.rs:297-338 | `seek(0)` and repeated `next` return exactly the stored keys, each once, ascending |
| BranchCursor.LexGeIsOrder | src/cursor.rs:793-802 | the comparison is the pre-order in which a parent precedes its children |
| BranchCursor.AllLessIsOrder | src/cursor.rs:806-814 | a skipped prefix has nothing at or after the target |
| BranchCursor.StepIsNext | src/cursor.rs:925-930 | not before a path with a zero nibble appended means after the path |
| BranchCursor.BuildEntry | src/cursor.rs:817-841 | the masks and hashes are exactly those of the children's classification |
| BranchCursor.NodeInfo | src/cursor.rs:663-703 | the classification says a child has branches below exactly when it has, and gives its hash exactly when it is referenced by hash |
| BranchCursor.SlotInfo | src/cursor.rs:705-730 | the same for frontier children, with a hash for every child but promoted accounts, the child's own when nothing is inlined |
| BranchCursor.BranchWalk.NodeSeek | src/cursor.rs:735-790 | finds the least branch position not before the target, with its masks, and restores the path buffer |
| BranchCursor.BranchWalk.RamSeek | src/cursor.rs:844-901 | the same over the frontier |
| BranchCursor.TrieNodeCursor.Seek | src/cursor.rs:917-923 | the least branch at or after the path, never the root, with exactly the hashes of the children that have one |
| BranchCursor.TrieNodeCursor.Next | src/cursor.rs:925-930 | the least branch after the last one, with its masks and exactly those hashes |
| BranchCursor.TrieNodeCursor.ListAll | src/cursor.rs:905-931 | seeking the empty path and stepping on comes to an end and returns every branch position but the root, in pre-order, with right masks and exactly the hashes of the children that have one |
| BranchCursor.PreRankIsOrder | src/cursor.rs:793-802 | the pre-order of paths up to a length is the order of numbers, so the walk ends |
| BranchCursor.BranchListing | src/cursor.rs:905-931 | the cursor lists every branch position but the root, each once, in pre-order |
| CodeLog.ReadExactOrEof | src/state.rs:255-265 | full, clean end or torn, exactly by how much of the file is left, whatever chunks the file yields |
| CodeLog.Scan | src/state.rs:54-78 | the scan stops at the first record that is not completely there |
| CodeLog.ScanOfCut | src/state.rs:54-78 | on a log cut at any byte the scan finds exactly the completely written records |
| CodeLog.CompleteIsExact | src/state.rs:54-78 | a code survives exactly if its record ends at or before the cut |
| CodeLog.ReopenRecovers | src/state.rs:41-82 | reopening a cut log gives, state for state, the store that only ever held the surviving codes |
| CodeLog.CodeStore.Put | src/state.rs:86-100 | appends the code unless it is empty or its hash is known; what was appended reads back if and only if its length fits 32 bits |
| CodeLog.RecordFormat | src/state.rs:90-94 | 32 bytes of hash, the length in four bytes with the lowest first, the code |
| CodeLog.AfterIsExact | src/state.rs:86-100 | a put keeps every code in its place, leaves one with the hash put in, and the code itself at the end if its hash was new |
| CodeLog.PutThenGet | src/state.rs:86-114 | a code put in comes back: always one of its hash, and that code itself unless another with its hash was there before |
| CodeLog.SurvivesIff | src/state.rs:41-100 | after every history a code of a given hash is held if and only if one was put in and every later crash left its record whole |
| CodeLog.CodeStore.Get | src/state.rs:103-114 | the empty hash gives the empty code, a known hash its code, any other nothing |
| CodeLog.SurvivorsKept | src/state.rs:41-100 | every history of puts and crashes leaves a well-formed log |

## Left out

- Regions: the garbage-collection epoch, the evacuation marks, victim scoring and the rate controller are tuning and not modelled.
- Regions: nothing is claimed about a head region that dies while it is head; the source puts it on no list.
- Reclaim: the fallback to the manifest before the last one; quarantine protects only the latest checkpoint.
- Reclaim: fsync and O_DIRECT mechanics, thread pools and bincode bytes; each lock section and system call is one atomic step.
- Reclaim: the address limit of 32-bit units is modelled in the batch writers only.
- Trie: nodes rewritten through `&mut` are functions from the old node to the new one; a node has one owner, so no aliasing is lost.
- Trie: cached node references are recomputed, not stored; `Overflow` nodes, which insert and delete treat as unreachable, do not appear.
- TrieLaws.InsertSpec: an account operation on an account stored as a plain value (opaque) is an error here; the source decodes the value with the foreign RLP library and converts or re-encodes the leaf.
- TrieLaws.ResolveCanonical: the same.
- TrieHistory.DeleteSpec: a slot delete or wipe on such a leaf is an error here.
- TrieHistory.ApplyCanonical: the same.
- Frontier: nodes are values for the same reason; copy-on-write sharing with snapshots is the subject of the reclamation machine instead.
- Frontier: inserting into an empty root builds a one-child branch and deleting below two keys is an error in the source; theorems start from a root with two children and speak of successful calls, and `FrontierRuns.StepCommutes` says exactly which calls fail.
- Frontier: size thresholds, clock bits and quotas that choose what to promote or spill are the arbitrary `Policy` and `pick`.
- FrontierRuns.LayoutNeverShows: equality of roots assumes that no frontier child's encoding is under 32 bytes, because the source always embeds frontier children as hashes.
- BlockRecord.WriteSlot: accounts stored as plain values are excluded (`Structured`), for the same reason.
- BlockRecord.ApplyNetInRecord: the same; a run step that meets such a leaf stops the run.
- BlockTrie.ApplyBlock: works on one record trie; `FrontierBlock` covers the frontier and the fan-out.
- FrontierNet: the inverses pushed for promoted accounts; the slot paths the source collects for them carry the account's nibbles in front and do not have key length (src/lib.rs:4406-4420).
- FrontierBlock.FrontierUndone: takes any exact inverse block; the one the source returns is exact for inline accounts.
- BlockNormalize.Normalize: returns a map; the ascending order of its entries is not modelled, since keys do not interfere.
- Codec: the readers' positions are values passed along instead of a mutable field; a branch slot that holds an empty node is not distinguished from an absent one; the storage root and reference of an account node are recomputed on read and not part of the node.
- Packer: statistics and the lock around the allocator.
- Cursor: the one-record parse memo, which returns what the store returns as long as the view is not written; the storage cursors, which run the same walks on an account's storage.
- Cursor.AccountCursor.Seek: an account stored as a plain value is surfaced as that value; the source decodes it with the foreign RLP library.
- Cursor.AccountCursor.Next: the same.
- Cursor.AccountCursor.ListAll: the same.
- Not modelled at all: `src/reveal.rs`, statistics, profiling, audits, the gc probe, the fused GC and one-writer paths, the network-facing and benchmark programs.
