# A verified model of the dynamic-hash file engine

This project models the part of ScarletDME (OpenQM) that keeps records in dynamic-hash files, and
proves what it promises. It covers three machines that work in place, and relates each to a simple
meaning.

**The linear-hash file** (`DhFile.dfy` and the files it builds on). A file is a number of primary
groups. Each group is a chain of fixed-size blocks of packed records; the overflow blocks are shared
by the group chains, by the chains that hold large records, and by the free chain. Every write and
delete may replace, remove, compact, append, release blocks and then split or merge a group. The
class `DhFile` has the file's fields and blocks and performs these steps on buffers that are read,
changed and written back, one block at a time. Its invariant `Valid` says that

* every overflow block is on exactly one chain, and every chain ends (`Layout.Partition`),
* every block's byte count is its header plus its records' sizes and within the group size, and no
  overflow block on a group's chain is empty (`Disks.GroupShape`),
* every record is in the group its key is addressed to, no key occurs twice, and the records with
  their large-record chains hold exactly the data of a map (`Tables.TableOk`, `Images.Chains`),
* the load and the record count are the sums over the stored records.

Each operation keeps the invariant and does to the map what its name says. `DhFile.Run` states this
for every sequence of writes, deletes, clears, resizes and selects.

**The group locks and the resize protocol** (`LockTable.dfy`, `Protocol.dfy`,
`ProtocolTheorems.dfy`, `Progress.dfy`, `Endings.dfy`, `BlockPlaces.dfy`, `SelectTheorems.dfy`,
`SelectPaths.dfy`, `SelectTwice.dfy`, `RecordCount.dfy`, `Miscount.dfy`, `LockSystem.dfy`,
`LockTheorems.dfy`, `SystemEndings.dfy`).
`LockTable` is the cyclic hash table of locks, as an array of cells that the scan reads and rewrites.
Above it any number of processes read, write, delete, select, split and merge, one atomic step at a
time, taking the file table lock, the group locks and the header lock in the order of the source.
Records are kept group by group and every overflow block has an owner, so that nothing but the locks
keeps an id from lying in two groups, or a block from being on two chains. A writer counts its update
when it locks the group and its record later on; a select goes from group to group under a read lock
on each, keeps the ids it has listed, and may put their number in the header. The theorems hold in
every state of every interleaving. `LockSystem` puts several such files and the lock table together:
each step that locks or unlocks is a step of the table too, which has three cells for each process.
Besides what every run keeps, it is proved what runs can come to: from every reachable state all
processes can finish and be idle again, with every lock given back, and any of them can then read,
write, delete, select, split or merge with the effect it should have (`Endings.dfy`,
`SystemEndings.dfy`).

**The alternate-key index** (`AkOrder.dfy`, `AkNodes.dfy`, `AkChanges.dfy`, `AkSearch.dfy`,
`AkBig.dfy`, `AkIndex.dfy`, `AkScan.dfy`, `AkRootSplit.dfy` and `AkFullRoot.dfy`). `AkIndex` is a tree
of nodes that are read, changed and written back: a root that is a leaf, or a root over doubly linked
leaves whose keys are the largest keys of the leaves. The data of a large record is in a chain of nodes
that shares the free chain with the tree. `AkScan` is the position that a scan keeps between calls.

How the files depend on one another: `Sequences`, `Addressing`, `Blocks`, `Chunks`, `Resize` and
`Creation` come first; `Layout`, `Disks`, `Groups`, `Tables`, `Images`, `Overlays`, `BigRecs`,
`Steps`, `Updates`, `Splits` and `Enumerations` hold the specifications and lemmas of `DhFile`. A
method is proved against those specification functions; what the source promises is then proved
about them. A buffer that is in memory and not yet written is laid over the disk where it will be
written (`Overlays.dfy`), so that a chain being rebuilt is a whole chain at every step.

Ids are sequences of bytes and hashing is an arbitrary function of the id, or of the upper-case id
when the file ignores case. A record's data is a sequence of bytes and arrives in chunks.

## What the proofs found

Where a property holds only under a condition, the condition is proved exactly.

* An interrupted select (`dh_complete_select` leaving its loop at gplsrc/dh_selct.c:161-176) still
  stores the counts of the groups it has passed as the counts of the file. They are right exactly
  when the groups left out have no records, or nothing was stored (`DhFile.CompleteSelect`).
  `DhFile.CutShort` gives an example.
* A split lets the file table lock go before it locks the group it divides
  (gplsrc/dh_split.c:132-138). A select that begins just then can list a record in that group and
  again in the new one: from every such state in which the group has a record to be moved there is a
  run in which that happens (`SelectsTwice.CanListTwice`), and `SelectListsTwice` is one from the
  start. If no split is waiting so when the select begins, then however many processes write and
  resize, it lists every id once that is there all the time, and none twice
  (`SelectTheorems.SelectListsOnce`). It never misses one (`SelectListsAll`).
* Creation compares the two loads only when a split load is given (gplsrc/dh_creat.c:103-108). The
  split load is above the merge load exactly when the split load was given or the merge load asked
  for is below 80 (`Creation.LoadsInOrder`). Resizing settles without reversing all the same:
  that proof does not need the two loads in order.
* After a scan has run off the right edge and its key has been deleted while greater keys were
  added, the next scan to the right passes over one key, and a scan to the left returns a greater
  key (gplsrc/dh_ak.c:1418-1424 and 1466-1476). `AkScans.FromTheRight` says exactly when the scan
  is right, and `AkScans.RightEdgeSkips` gives an example.
* When a change splits the root of an index, the place in the new root is set and then advanced again
  (gplsrc/dh_ak.c:3565-3569 and 3614-3617), so the key of the half that was changed is never brought
  up to date. A search then comes to the right leaf except for the keys beyond the last key of the old
  root, and for those in the gap that a delete can leave at the end of the left half, where there is
  nothing to be found (`AkRootSplits.SearchAfterSplit`). A record beyond the last key is lost
  (`GreatestLost`). Writing ever greater keys to an empty index comes to such a write before long
  (`AkFullRoots.FillUp`), and whatever nodes it splits the root into, its record is lost
  (`AkFullRoots.FullRootLoses`).
* A lock that nobody holds must wait although a cell is free when the last cell of the scan holds a
  lock of the same hash (gplsrc/dh_file.c:650-651). `LockTable.GetLock` says exactly when a lock
  must wait. With three cells for each user (gplsrc/sysseg.c:173) a cell is always free
  (`LockTheorems.CellFree`), and only the third lock of a split or merge, which is its header lock, can
  be the one in the last cell (`LastIsHeader`, `WrapsKept`). So a process is refused a lock that nobody
  holds only while another is about to give back such a header lock (`TableDecides`), and never when
  there is one file (`OneFileDecides`). That other process waits for nothing, so no state that the
  processes and the table can reach is a deadlock, whatever the number of files (`LockTheorems.NoDeadlock`).
  `LockTables.RefusedThoughFree` reaches such a refusal from an empty table of six cells.
* A write or delete changes the file first and the record count later (gplsrc/dh_write.c:472-487,
  gplsrc/dh_del.c:331-345). A select that runs in between stores a number that has the change in it
  already, since the update was counted before (gplsrc/dh_write.c:173), and the change is then counted
  a second time: from every such state there is a run in which that happens
  (`Miscounts.CanMiscount`, with an example from the start in `SelectMiscounts`). And a delete that is
  counted before the write of the record it has deleted is cut off at zero
  (gplsrc/dh_del.c:341-343), so that the write is then one too many (`ClampMiscounts`). These two kinds of
  steps are the only ones that can put the count wrong: `RecordCounts.StepDrift` says by how much, and
  `StaysRight` exactly when they do not. If nobody is about to change the file when a select begins and no
  split waits, the number it stores is the number of records, and the count comes out right if and only
  if what others have still to count comes to nothing (`StoreRight`).
* A key has one place in an index (`AkNodes.SpotUnique`), so a single descent decides whether a
  change would split the root: `AkIndex.HasRoom` is exact, and `AkIndex.Run` stops only at a change
  that would.
* Writing needs data, or an id short enough that the empty record is not a large one: the loop
  at gplsrc/dh_write.c:571-573 starts from the first chunk of data.
* The comment in the write that a replaced large record of the same size was large before
  (gplsrc/dh_write.c:239) holds unless the old record has at most three bytes of data, which lie in
  the padding: an id of 5 bytes with 3 bytes of data takes 16 bytes, as its large form does. The code
  is right in that case too, and the proof covers it.

## Model

| member | source | states |
|---|---|---|
| Addressing.ValidMeansUpperHalf | gplsrc/dh_creat.c:176-180 | being the least power of two not below the modulus is the same as being a power of two whose half is below it |
| Addressing.InitialModValue | gplsrc/dh_creat.c:176-180 | the doubling loop finds the least power of two not below the modulus |
| Addressing.AddressIsRemainder | gplsrc/dh_hash.c:113-117 | the address is the remainder of the hash value by the power of two, counted from 1, or half the power less where that group is not there yet |
| Addressing.AddressInRange | gplsrc/dh_hash.c:113-117 | every hash value is addressed to an existing group |
| Addressing.EveryGroupIsAddressed | gplsrc/dh_hash.c:113-117 | every existing group is the address of some hash value |
| Addressing.GrowMovesOneGroup | gplsrc/dh_split.c:113-118 | one group more keeps the parameters right and re-addresses only ids of the one group that is split, and those only to the new group |
| Addressing.ShrinkFoldsLastGroup | gplsrc/dh_split.c:322-356 | one group less re-addresses exactly the ids of the last group, all to the merge target |
| Addressing.GrowShrinkInverse | gplsrc/dh_split.c:354-356 | the parameter steps of a split and a merge undo one another |
| Resize.RecheckConfirms | gplsrc/dh_split.c:93-99 | the test repeated under the lock agrees with the decision made before it, on the same state |
| Resize.LoadIsPercentage | gplsrc/dh_fmt.h:113-115 | the load is the whole part of the percentage that the bytes are of the space of the groups |
| Resize.DecideByProducts | gplsrc/dh_write.c:496-516 | a split is called for if and only if 100 times the bytes reach the space times the split load and one, or groups are missing; a merge if and only if that is not so, they are below the space times the merge load, no needed group goes, and with one group fewer they are below the split load |
| Resize.StepNeverReverses | gplsrc/dh_write.c:496-516 | with the load unchanged a split is never followed by a merge, nor a merge by a split |
| Resize.StepDecreasesDistance | gplsrc/dh_misc.c:182-203 | an explicit measure falls with every resize step that changes the file |
| Resize.ResizingSettles | gplsrc/dh_misc.c:182-203 | repeated resize steps reach a modulus they then keep, within that measure, moving in one direction only |
| Creation.AcceptedIsUsable | gplsrc/dh_creat.c:75-108 | whatever settings creation accepts meet the needs of the engine |
| Creation.AcceptedSettings | gplsrc/dh_creat.c:75-108 | what each argument becomes: kilobytes of group size, at least one group, four fifths of the group for a large record unless given and never more than fits, and 50 and 80 per cent for loads that are not given |
| Creation.Refusals | gplsrc/dh_creat.c:75-108 | which argument is refused, if any |
| Creation.LoadsInOrder | gplsrc/dh_creat.c:96-108 | the split load is above the merge load if and only if it was given or the merge load asked for is below its default |
| Creation.LoadsOutOfOrder | gplsrc/dh_creat.c:96-108 | a merge load of 90 with the split load left to its default is accepted and puts the split load below it |
| Layout.TakeKeepsPartition | gplsrc/dh_file.c:428-484 | giving a free or new block to a chain leaves every block on exactly one chain |
| Layout.ReleaseKeepsPartition | gplsrc/dh_file.c:502-519 | releasing a block leaves every block on exactly one chain |
| Layout.ReleaseAllKeepsPartition | gplsrc/dh_write.c:677-720 | releasing a whole chain leaves every block on exactly one chain |
| Blocks.SizeIsContent | gplsrc/dh_write.c:138-164 | a record takes eight bytes, its id and its data unless that is kept elsewhere, rounded up to a multiple of four |
| Blocks.BytesAreContents | gplsrc/dh_write.c:138-164 | records take what must be stored for them and less than four bytes more each |
| Blocks.ChainLength | gplsrc/dh_write.c:575-635 | a large record takes no more blocks than its data needs, of the group size less 12 bytes each |
| Disks.AllocSound | gplsrc/dh_file.c:406-497 | an allocated block goes to the end of the one chain it is meant for, and no other chain but the free chain changes |
| Disks.FreeSound | gplsrc/dh_file.c:502-522 | a freed block leaves its chain, and no other chain but the free chain changes |
| Tables.MatchesIsSameKey | gplsrc/dh_read.c:137-145 | two ids match byte by byte if and only if they are the same key |
| Tables.KeysAreIds | gplsrc/dh_read.c:137-145 | ids have one key if and only if they are equal, or in a file that ignores case, if and only if each pair of bytes is equal or one letter of the alphabet in its two cases |
| Tables.KeyIsUpperCase | gplsrc/dh_hash.c:101-112 | the key that is hashed is the id, or has no lower-case letter where the file ignores case |
| Tables.PutDataUnder | gplsrc/dh_write.c:178-416 | what is put or deleted under an id is so for every id that names the record, and for no other |
| Tables.LoadIsContent | gplsrc/dh_write.c:472-487 | the load of a file is what must be stored for its records and less than four bytes more for each |
| Tables.LookupDecides | gplsrc/dh_read.c:96-101 | a key is in the map if and only if it is in the group it is addressed to |
| Tables.InsertKeepsTable | gplsrc/dh_write.c:356-409 | a record appended to its group adds its key and data to the map and changes nothing else |
| Tables.RemoveKeepsTable | gplsrc/dh_del.c:161-172 | a record removed from its group removes its key from the map and changes nothing else |
| Tables.ReplaceKeepsTable | gplsrc/dh_write.c:233-257 | a record overwritten in place changes the data of its key and nothing else |
| Tables.SplitKeepsTable | gplsrc/dh_split.c:157-247 | the groups after a split stand for the same map under the new addresses |
| Tables.SplitConserves | gplsrc/dh_split.c:157-247 | a split neither adds nor loses records or bytes |
| Tables.MergeKeepsTable | gplsrc/dh_split.c:386-466 | the groups after a merge stand for the same map under the new addresses |
| Tables.MergeConserves | gplsrc/dh_split.c:386-466 | a merge neither adds nor loses records or bytes |
| Groups.AppendSound | gplsrc/dh_write.c:358-409 | appending to the end of a chain, with a new overflow block if needed, adds the record after all others and touches no other group |
| Groups.DeleteShape | gplsrc/dh_write.c:259-268 | taking a record out of a block takes just that record out of the group's sequence and keeps the byte count exact |
| Groups.ReplaceShape | gplsrc/dh_write.c:233-257 | a version of the same size takes the old one's place in the group's sequence |
| Groups.AdvanceSound | gplsrc/dh_write.c:284-336 | moving what fits to the block before keeps the group's records and their order, within the group size, and leaves no overflow block behind empty |
| Groups.DechainSound | gplsrc/dh_write.c:318-323 | an emptied block is unlinked and freed, and the group's records keep their order |
| BigRecs.WritingMore | gplsrc/dh_write.c:575-635 | a full block is written and linked to the next, and the chain so far holds the bytes so far |
| BigRecs.WritingDone | gplsrc/dh_write.c:575-635 | the last block completes a chain that holds exactly the data, and no other chain has changed |
| BigRecs.ReleaseSound | gplsrc/dh_write.c:677-720 | a cleared large-record chain put before the free chain is all the free chain has gained |
| Updates.WrittenTable | gplsrc/dh_write.c:178-416 | a written record makes the map's key have its data, whether it was absent, replaced in place, or moved to the end |
| Updates.StoreStands | gplsrc/dh_write.c:162-487 | after a write the disk stands for the updated map and the totals follow the size of the new and the old version |
| Updates.EraseStands | gplsrc/dh_del.c:122-345 | after a delete the disk stands for the map without the key and the totals follow |
| Splits.SplitStands | gplsrc/dh_split.c:113-247 | the two chains a split has written stand for the unchanged map under the new parameters |
| Splits.FoldEnds | gplsrc/dh_split.c:386-466 | the chain a merge has written stands for the unchanged map under the new parameters |
| Enumerations.EveryIdOnce | gplsrc/dh_selct.c:158-236 | listing group by group lists every key once and nothing else |
| DhFiles.DhFile.constructor | gplsrc/dh_creat.c:160-202 | a created file is empty, has the accepted settings, and satisfies the invariant |
| DhFiles.DhFile.HashGroup | gplsrc/dh_hash.c:101-120 | an id is hashed by its key, and by nothing else, to an existing group |
| DhFiles.DhFile.BlocksHold | gplsrc/dh_write.c:358-409 | every block of every group has room for its header and for all bytes that its records must store |
| DhFiles.DhFile.LoadHolds | gplsrc/dh_write.c:472-487 | the load counts the bytes that the records must store, and less than four more for each |
| DhFiles.DhFile.LargeTakes | gplsrc/dh_write.c:557-636 | the chain of a large record has just as many blocks as its data needs |
| DhFiles.DhFile.Clear | gplsrc/dh_clear.c:71-137 | a cleared file is empty, has its minimum modulus and no overflow blocks, and its select is ended |
| DhFiles.DhFile.FindRecord | gplsrc/dh_write.c:178-354 | the search of a chain finds the id's record, or there is none in the group |
| Steps.AppendRealLaid | gplsrc/dh_write.c:358-409 | writing and linking a full buffer before a new block takes the record, while another buffer is unwritten, leaves just what appending to the whole chain would |
| DhFiles.DhFile.AppendRecord | gplsrc/dh_write.c:358-409 | a record is appended to a group while another buffer is still unwritten, neither is lost, and the chain gets a block more if and only if the record does not fit the last |
| DhFiles.DhFile.MoveFitting | gplsrc/dh_write.c:284-316 | a prefix of the next block's records moves, as long as one more would not fit |
| DhFiles.DhFile.CompactForward | gplsrc/dh_write.c:274-339 | closing up a chain keeps the group's records and their order, empties no block that stays, and leaves no block that begins with a record that fits the one before |
| DhFiles.DhFile.TakeOut | gplsrc/dh_write.c:259-339 | a record is taken out and the chain closed up from its block to its end |
| DhFiles.DhFile.PutRecord | gplsrc/dh_write.c:178-416 | the group's sequence has the new version in the old one's place if it has the same size, else without the old one and the new one at the end |
| DhFiles.DhFile.RemoveRecord | gplsrc/dh_del.c:122-279 | the group's sequence is the old one without the record of the id, or nothing has changed; its block is unlinked if nothing else was in it, or else the chain is closed up from there on: no block begins with a record that fits the one before |
| DhFiles.DhFile.UnlinkEmptied | gplsrc/dh_del.c:174-188 | an overflow block emptied by a delete is unlinked from the one before and freed |
| DhFiles.DhFile.WriteBigRec | gplsrc/dh_write.c:557-636 | however the data is cut into chunks, the new chain holds exactly its bytes |
| DhFiles.DhFile.ReadBigRec | gplsrc/dh_read.c:195-217 | the bytes collected from a chain are the bytes it holds |
| DhFiles.DhFile.FreeBigRec | gplsrc/dh_write.c:677-722 | just the blocks of the chain go to the head of the free chain |
| DhFiles.DhFile.PrepareBody | gplsrc/dh_write.c:138-160 | a record is held as a large one exactly from the configured size on, and what remains in the group fits a block |
| DhFiles.DhFile.Place | gplsrc/dh_write.c:166-418 | the update is counted, the record is in its group, and the chain of its old version is set aside |
| DhFiles.DhFile.Displace | gplsrc/dh_del.c:112-283 | the update is counted, the record is out of its group, and its chain is set aside |
| DhFiles.DhFile.ReleaseOld | gplsrc/dh_write.c:421-428 | the chain set aside is released, and the file stands for the same map |
| DhFiles.DhFile.CountWrite | gplsrc/dh_write.c:472-487 | the load and the record count stay exact, so the guard against a negative load never acts |
| DhFiles.DhFile.CountDelete | gplsrc/dh_del.c:331-345 | the load and the record count stay exact, so neither clamp to zero ever acts |
| DhFiles.DhFile.WriteRecord | gplsrc/dh_write.c:138-487 | the map has the data at the key, all other keys are as before, and no block is lost or shared |
| DhFiles.DhFile.DeleteRecord | gplsrc/dh_del.c:112-345 | the map is without the key, all other keys are as before, and no block is lost or shared |
| DhFiles.DhFile.DivideBlock | gplsrc/dh_split.c:187-226 | the records of a source block go, in order, to the buffer of the group they are now addressed to |
| DhFiles.DhFile.DivideGroup | gplsrc/dh_split.c:157-247 | the split group and the new group are the stable partition of the old records by address, and no other group changes |
| DhFiles.DhFile.Split | gplsrc/dh_split.c:84-262 | a split that is allowed and still needed divides exactly one group; otherwise nothing changes; the map and the inhibit count stay |
| DhFiles.DhFile.FindEnd | gplsrc/dh_split.c:369-384 | the last block of the target's chain is found |
| DhFiles.DhFile.FoldBlock | gplsrc/dh_split.c:396-441 | the records of a source block are appended to the target in order |
| DhFiles.DhFile.FoldGroup | gplsrc/dh_split.c:369-466 | the target has its own records followed by the source's, and no other group changes |
| DhFiles.DhFile.Merge | gplsrc/dh_split.c:305-483 | a merge that is allowed and still needed folds the last group into its target; otherwise nothing changes; the map and the inhibit count stay |
| DhFiles.DhFile.Read | gplsrc/dh_read.c:96-231 | a record is reported missing if and only if its key is not in the map, and otherwise its data is the map's; the id reported is one that the file lists and that names the record |
| DhFiles.DhFile.Exists | gplsrc/dh_exist.c:78-148 | a record is reported to exist if and only if its key is in the map |
| DhFiles.DhFile.ResizeIfNeeded | gplsrc/dh_write.c:494-516 | the number of groups rises by one if and only if the bytes call for a split, falls by one if and only if they call for a merge and not for a split, by products of the settings, and stays while a resize is held off |
| DhFiles.DhFile.ForceResize | gplsrc/dh_misc.c:182-203 | the forced call takes the same step whatever the no-resize flag says, reports whether one was called for, and takes none while held off |
| DhFiles.DhFile.Write | gplsrc/dh_write.c:129-519 | the map has the data at the key and is otherwise unchanged, so every id that names the record has the data and every other what it had, through any split or merge that follows |
| DhFiles.DhFile.Delete | gplsrc/dh_del.c:106-379 | the map is without the key and otherwise unchanged, so no id that names the record has data and every other what it had, through any split or merge that follows, and whether the key was there is reported |
| DhFiles.DhFile.ScanGroup | gplsrc/dh_selct.c:359-396 | the ids, the number and the bytes of a group's records are collected |
| DhFiles.DhFile.SelectGroup | gplsrc/dh_selct.c:328-447 | the ids of the next group that has any are listed, and at the end exact counts are stored and the resize is released |
| DhFiles.DhFile.Select | gplsrc/dh_selct.c:61-102 | a select begins by ending the one before, holds off resizing, and lists the first group that has records |
| DhFiles.DhFile.CompleteSelect | gplsrc/dh_selct.c:107-280 | all groups up to the event are listed, and the counts stay exact if and only if the groups left out have no records or no count is stored; one is stored unless the file has changed, is read-only, or the groups passed by this call have no records |
| DhFiles.DhFile.CutShort | gplsrc/dh_selct.c:161-176 | a select that is interrupted at the second of two groups that have records leaves the file with a record count between none and all, and the invariant broken |
| DhFiles.DhFile.EndSelect | gplsrc/dh_selct.c:285-298 | ending a select gives back its hold on resizing, once |
| DhFiles.DhFile.SelectAll | gplsrc/dh_selct.c:61-280 | an undisturbed select lists the ids of the file, every key of the map once, and leaves the counts exact |
| DhFiles.DhFile.Run | gplsrc/dh_write.c:129-519 | after any sequence of writes, deletes, clears, resizes and selects the file stands for the map the same sequence makes |
| LockTables.XorBits | gplsrc/locks.h:96-98 | a bit of the exclusive or is set if and only if it is set in just one of the two numbers |
| LockTables.HomeCell | gplsrc/locks.h:96-98 | a lock hashes to the cell of the remainder of file and group, joined by exclusive or, counted from 1 |
| LockTables.AddedOk | gplsrc/dh_file.c:683-692 | a lock set up in a free cell is counted at home, and no other lock changes |
| LockTables.DroppedOk | gplsrc/dh_file.c:726-748 | a lock taken out is no longer counted, and no other lock changes |
| LockTables.ScanDone | gplsrc/dh_file.c:616-652 | a scan that has met as many locks as the home cell counts has seen every cell that could hold the lock |
| LockTables.ScanWrapped | gplsrc/dh_file.c:650-651 | a scan that comes round still counting has not met the lock, and the last cell holds one of the same hash |
| LockTables.WriterAlone | gplsrc/dh_file.c:606-748 | a granted write lock is the only grant of its lock |
| LockTables.RefusedThoughFree | gplsrc/dh_file.c:650-651 | from an empty table of six cells, two processes that each split a file and set three locks, the first then giving its own back, lead to a lock that nobody holds being refused while three cells are free |
| LockTables.LockTable.constructor | gplsrc/locks.h:96-115 | an empty table holds no lock |
| LockTables.LockTable.GetLock | gplsrc/dh_file.c:606-692 | an attempt fails exactly when it must wait; otherwise the one lock asked for has one writer or one reader more and no other lock changes |
| LockTables.LockTable.FreeLock | gplsrc/dh_file.c:726-748 | giving a lock back takes exactly that grant away and no other lock changes |
| Protocol.StepKeeps | gplsrc/dh_split.c:84-264 | every step of every process keeps the locks exclusive, the inhibit count exact, and each record where its holder looks for it |
| Protocol.SameLock | gplsrc/dh_split.c:120-138 | two processes that hold locks for one id hold the same lock |
| Protocol.LockedStays | gplsrc/dh_write.c:168-174 | while one process holds the lock of an id's group, no step of another changes its record or the record's chain |
| Protocol.ReassignKeeps | gplsrc/dh_file.c:406-522 | handing blocks round among some owners, with new ones from the end of the file, keeps every block in exactly one place |
| Protocol.SpaceKept | gplsrc/dh_write.c:418-428 | every step of every process keeps every overflow block in exactly one place, whether it is free, in a group, in a large record or in a process's hand |
| Protocol.HandsKept | gplsrc/dh_write.c:418-428 | no step that ends an operation leaves a block in the process's hand |
| ProtocolTheorems.RunKeeps | gplsrc/dh_split.c:84-483 | the invariant holds in every state of every interleaving |
| ProtocolTheorems.OneGroupEach | gplsrc/dh_split.c:337-352 | no id ever lies in two groups, though nothing in the state rules it out |
| ProtocolTheorems.RightGroup | gplsrc/dh_write.c:168-174 | whoever holds the group lock taken for an id is on the group where its record lies, if there is one |
| ProtocolTheorems.AwayOnlyWhileMoving | gplsrc/dh_split.c:337-358 | a record lies away from its group only while a split or merge moves records between those two groups and guards the new one |
| ProtocolTheorems.BlocksInOnePlace | gplsrc/dh_file.c:406-522 | in every interleaving each overflow block is free, on one group's chain, on one large record's chain, or in one process's hand, and in no two of these |
| BlockPlaces.ChainsKept | gplsrc/dh_split.c:369-466 | every step keeps the chains with the groups of the file, but for the one that a merge is emptying |
| BlockPlaces.NoneLost | gplsrc/dh_file.c:406-522 | in every reachable state each overflow block is free, in a group of the file or one being emptied, in a record that can be found or is being moved, or in the hand of a process that has not finished |
| BlockPlaces.NoneLeftOver | gplsrc/dh_file.c:406-522 | when every process is idle each overflow block is free, in a group of the file, or in a large record in its group |
| ProtocolTheorems.ReaderSafe | gplsrc/dh_read.c:195-217 | while a reader has its lock the chain it found is still the record's, and none of its blocks is released, taken by a process, or on another chain |
| ProtocolTheorems.NewGroupNeverWaits | gplsrc/dh_split.c:120-124 | the lock on the group a split adds can always be had at once |
| ProtocolTheorems.OneResizeAtATime | gplsrc/dh_split.c:84-132 | at most one split or merge is under way, and the inhibit count is the number of those who hold one off |
| ProtocolTheorems.StepsActOnMap | gplsrc/dh_read.c:96-101 | each keyed operation acts on the shared map in one step and sees the truth there; moving records never changes the map |
| ProtocolTheorems.WaitsUpward | gplsrc/dh_split.c:134-138 | whoever is waited for is further on in the order of locks than whoever waits |
| ProtocolTheorems.NoCircle | gplsrc/dh_split.c:325-358 | waiting never goes round in a circle |
| Progress.NoDeadlock | gplsrc/dh_split.c:84-483 | if every lock that nobody holds incompatibly is granted: in every reachable state in which a process has work to finish, one such process can make a step |
| Progress.Unblocked | gplsrc/dh_split.c:84-483 | a process that waits for nobody can make a step after which it has fewer steps left to being idle, by a measure that counts what a split or merge has still to move, and no other has more |
| Endings.CanRest | gplsrc/dh_split.c:473-483 | every run can be continued to a state in which all processes are idle, no resize is held off, and the file is the same map |
| Endings.CanRead | gplsrc/dh_read.c:96-231 | from every reachable state any process can look for a record and finish, and sees it if and only if it is there |
| Endings.CanChange | gplsrc/dh_write.c:129-487 | from every reachable state any process can write a record with any data, with any number of new blocks for it and for its group, or delete it, and in the end all are idle and the map is changed by just that |
| Endings.CanResize | gplsrc/dh_split.c:84-483 | from every reachable state any process can split a group, or merge one of several, and in the end all are idle, there is one group more or fewer, and the file is the same map |
| Endings.CanSelect | gplsrc/dh_selct.c:328-447 | from every reachable state any process can make a select that lists every id of the file once and nothing else and leaves the right record count, and in the end all are idle |
| LockSystems.UsedBound | gplsrc/dh_file.c:683-692 | the table has no more used cells than there are locks held |
| LockSystems.HeldBound | gplsrc/sysseg.c:173 | beside what one process has, there are at most three locks for each other process, or two if none of them has three |
| LockTheorems.HoldStep | gplsrc/dh_split.c:84-483 | a step that sets a lock sets just the one that was wanted, when nobody holds it incompatibly; any other gives back one lock at most, and from a split or merge with its header lock just that one |
| LockTheorems.CellsKept | gplsrc/dh_file.c:606-748 | every step keeps the table holding just the locks that the processes of all files have |
| LockTheorems.LastIsHeader | gplsrc/dh_file.c:661-679 | whoever asks for a lock while all cells but one are used is a split or merge that asks for its header lock, and with one file it is the only process |
| LockTheorems.WrapsKept | gplsrc/dh_file.c:606-748 | every step keeps it so that the last cell of a scan holds a lock of its hash only if that is the header lock of a split or merge |
| LockTheorems.SystemRunKeeps | gplsrc/dh_file.c:606-748 | the invariant of files and table together holds in every state of every interleaving |
| LockTheorems.CellFree | gplsrc/sysseg.c:173 | whoever asks for a lock finds a cell free |
| LockTheorems.GrantIsSafe | gplsrc/dh_file.c:606-692 | the table grants no lock that another process holds incompatibly |
| LockTheorems.TakeIsCompatible | gplsrc/dh_file.c:606-692 | a lock that nobody else holds incompatibly is compatible with what the table has |
| LockTheorems.TableDecides | gplsrc/dh_file.c:650-651 | a process must wait if and only if another holds the lock incompatibly, or nobody holds it and the last cell of its scan holds a lock of its hash; the holder of that one is splitting or merging and has its header lock |
| LockTheorems.OneFileDecides | gplsrc/dh_file.c:606-692 | with one file a process must wait if and only if another holds the lock incompatibly |
| LockTheorems.NoDeadlock | gplsrc/dh_file.c:606-692 | in every state that files and table can reach, if any process has work to finish in any file, one such process can make a step and the table grants what it needs |
| SystemEndings.SystemCanRest | gplsrc/dh_file.c:606-748 | every run of files and table together can be continued to a state in which all processes are idle in all files, no resize is held off, every file is the same map, and every cell of the table is free |
| SelectTheorems.SelectSteady | gplsrc/dh_selct.c:76-91 | while a select is on, the addresses stay as they are and no split begins |
| SelectTheorems.GroupListed | gplsrc/dh_selct.c:352-396 | under its read lock a select sees every record addressed to the group, and no other but those that a split still waits to move |
| SelectTheorems.SelectListsAll | gplsrc/dh_selct.c:328-447 | whatever other processes do, a select that has passed every group has listed every id that was there all the time and none that never was, at most twice, and twice only if a split was waiting to move it when the select began |
| SelectTheorems.SelectListsOnce | gplsrc/dh_selct.c:328-447 | if no split was waiting for the group it divides when the select began, nothing is listed twice |
| SelectTheorems.KnowsSince | gplsrc/dh_selct.c:94 | all along a select knows the update count there was when it began |
| SelectTheorems.StoresUnchangedOnly | gplsrc/dh_selct.c:429-437 | a select that ends leaves the counts alone unless no update has been counted since it began, and then may leave the number of ids it has listed |
| SelectsTwice.CanListTwice | gplsrc/dh_split.c:120-138 | whenever a select begins while a split waits for the group it divides, and nobody else is at work, it can go on so that any record the split moves is listed twice |
| SelectsTwice.SelectListsTwice | gplsrc/dh_split.c:120-138 | for every id that the first split of a file moves there is a run from the start in which it is listed twice |
| RecordCounts.StepDrift | gplsrc/dh_write.c:472-487 | how far the count will be off when all changes are counted alters only by a select that stores its number and by a delete that is cut off at zero, and by just so much |
| RecordCounts.StaysRight | gplsrc/dh_del.c:338-344 | a count that is right or unknown stays so over a step if and only if the step is no delete cut off at zero and no store of a number that differs from the records less what is still to be counted |
| RecordCounts.CountRight | gplsrc/dh_write.c:472-487 | over every run of such steps the count is the number of records, or unknown, whenever all processes are idle |
| RecordCounts.QuietSince | gplsrc/dh_selct.c:429-433 | if nobody is about to change the file and the update count stays the same, the ids in the file stay the same |
| RecordCounts.CountsOnce | gplsrc/dh_selct.c:429-433 | a select that has listed every id once has the number of records |
| RecordCounts.StoreRight | gplsrc/dh_selct.c:429-437 | a select that began with nobody about to change the file and no split waiting, and ends with the update count unchanged, has the number of records, and storing it makes the count right if and only if what others have still to count comes to nothing |
| Miscounts.CanMiscount | gplsrc/dh_selct.c:429-437 | whenever a select begins while a change is made and not counted, and nobody else is at work, it can go on so that the change is counted twice |
| Miscounts.SelectMiscounts | gplsrc/dh_write.c:472-487 | a run from the start after which a file of one record has a count of two |
| Miscounts.ClampMiscounts | gplsrc/dh_del.c:341-343 | a run from the start after which a file without records has a count of one |
| AkOrder.LessTotal | gplsrc/dh_ak.c:3378-3412 | of two different keys exactly one is less |
| AkOrder.LessTransitive | gplsrc/dh_ak.c:3378-3412 | less than is transitive |
| AkOrder.RanksAreIds | gplsrc/dh_ak.c:3378-3412 | keys rank alike if and only if they are equal, or without regard to case, if and only if each pair of bytes is equal or one letter in its two cases |
| AkOrder.LessIsBefore | gplsrc/dh_ak.c:3378-3412 | one key is less if and only if at the first place at which they differ it has ended or has the byte that comes before: by value, or without regard to case by the value of the capital, with the bytes from 128 on before all others |
| AkOrder.PutIndexed | gplsrc/dh_ak.c:2066-2288 | what is put or deleted under a key is so for every key that names the record, and for no other |
| AkOrder.FitsHolds | gplsrc/dh_ak.c:2168-2216 | a leaf takes records if and only if they and its header of 12 bytes come to no more than 4096, and then has room for all they must store |
| AkOrder.Compare | gplsrc/dh_ak.c:3378-3412 | the byte-by-byte comparison is negative, zero or positive just as the order says |
| AkOrder.PutSorted | gplsrc/dh_ak.c:2168-2288 | a record put where its key belongs leaves the list in ascending order |
| AkOrder.PutMaps | gplsrc/dh_ak.c:2168-2288 | a record put where its key belongs gives its key its body and changes no other key |
| AkOrder.RemoveMaps | gplsrc/dh_ak.c:2978-3001 | a record taken out takes its key away and changes no other key |
| AkOrder.HitDecides | gplsrc/dh_ak.c:3250-3313 | looking where a key belongs decides whether it is live and what its body is |
| AkNodes.TakeSound | gplsrc/dh_ak.c:2777-2812 | a taken node is on no chain any longer, and all other nodes are as before |
| AkNodes.GiveSound | gplsrc/dh_ak.c:2817-2849 | a freed node is at the head of the free chain, and all other nodes are as before |
| AkNodes.ReplaceInChain | gplsrc/dh_ak.c:2455-2557 | new leaves linked to each other and to both neighbours leave a consistent doubly linked chain |
| AkNodes.SpotIsPosition | gplsrc/dh_ak.c:3174-3313 | the place found by searching the root and one leaf is where the key belongs in the whole index |
| AkNodes.SpotUnique | gplsrc/dh_ak.c:3174-3313 | a key belongs in one place of the index only |
| AkChanges.FitCountFits | gplsrc/dh_ak.c:2365-2470 | a new leaf gets as many of the records that come after as fit, and no more would |
| AkChanges.InternalRoom | gplsrc/dh_ak.c:3482-3484 | the root can take new keys if and only if there are then at most 200 and they and a header of 1004 bytes come to no more than 4096 |
| AkChanges.LargeFrom | gplsrc/dh_ak.c:2076-2085 | a record of 3300 bytes or more is kept as a large one |
| AkChanges.SplitGood | gplsrc/dh_ak.c:2365-2470 | the two or three new leaves hold the old records with the new one in place, in order; each fits its node and none is empty |
| AkChanges.FitOutcome | gplsrc/dh_ak.c:2216-2288 | a record put in a leaf that has room for it leaves a sound index with the updated map, the root's key following when it is the leaf's last |
| AkChanges.RootSplitOutcome | gplsrc/dh_ak.c:2575-2638 | splitting the root leaf leaves a sound index with the updated map over two or three leaves |
| AkChanges.LeafSplitOutcome | gplsrc/dh_ak.c:2640-2675 | splitting a leaf under the root leaves a sound index with the updated map, the old leaf free |
| AkChanges.DeleteOutcome | gplsrc/dh_ak.c:2978-3085 | a record deleted from a leaf that keeps others leaves a sound index without the key, the root's key following when it was the last |
| AkChanges.UnlinkChain | gplsrc/dh_ak.c:3016-3048 | an emptied leaf's neighbours, linked to each other, leave a consistent chain of the other leaves |
| AkChanges.DropOutcome | gplsrc/dh_ak.c:3014-3060 | dropping an emptied leaf leaves a sound index over the others without the key |
| AkChanges.CollapseOutcome | gplsrc/dh_ak.c:3680-3714 | when one leaf is left it becomes the root, both old leaves are free, and the index is sound without the key |
| AkChanges.RoomDecided | gplsrc/dh_ak.c:3482-3484 | a change has room if and only if the tests at the one place of its key say so |
| AkChanges.RoomSuffices | gplsrc/dh_ak.c:3482-3484 | a root with room for three keys of the greatest length has room for every write and delete |
| AkBigs.PartMore | gplsrc/dh_ak.c:3914-3948 | a full node is written and linked to the next, and the chain so far holds the bytes so far |
| AkBigs.PartDone | gplsrc/dh_ak.c:3914-3948 | the last node completes a chain that holds exactly the data |
| AkBigs.BigNext | gplsrc/dh_ak.c:3842-3856 | the length in the first node and the limit of a node say exactly how many bytes each node of a chain adds |
| AkBigs.NodesTaken | gplsrc/dh_ak.c:3914-3948 | a large record takes as many nodes as its data needs, of 4084 bytes each |
| AkBigs.BigPut | gplsrc/dh_ak.c:2076-2085 | a new body for a key, with a chain of its own if it is large, leaves every large record with one chain, no two sharing a node, and the map updated |
| AkBigs.BigRemove | gplsrc/dh_ak.c:2986-2989 | taking a key away leaves the other large records their chains and the map without the key |
| AkSearches.LocateFacts | gplsrc/dh_ak.c:3174-3323 | a search finds the one place the key can be, knows if it is beyond either end, and finds the key if and only if it is live |
| AkSearches.ListedAll | gplsrc/dh_ak.c:1012-1033 | the ids of a sorted list are the keys of its map, ascending, each once |
| AkIndexes.AkIndex.constructor | gplsrc/dh_ak.c:1699-1910 | a new index is an empty leaf at node 1 |
| AkIndexes.AkIndex.Search | gplsrc/dh_ak.c:3174-3332 | a key is found if and only if it is live; the edge flags say whether it lies before or after every live key |
| AkIndexes.AkIndex.Read | gplsrc/dh_ak.c:3118-3332 | a key is found if and only if it is live, with its last data, from its leaf or its chain |
| AkIndexes.AkIndex.ReadBig | gplsrc/dh_ak.c:3828-3872 | the bytes collected from a chain are the data it holds |
| AkIndexes.AkIndex.WriteBig | gplsrc/dh_ak.c:3878-3955 | however the data is cut into chunks, the new chain holds exactly its bytes, and no other node is lost or shared |
| AkIndexes.AkIndex.FreeBig | gplsrc/dh_ak.c:3960-3990 | just the nodes of the chain go to the free chain, and the tree is as it was |
| AkIndexes.AkIndex.UpdateRoot | gplsrc/dh_ak.c:3609-3714 | one entry of the root is replaced by none, one, two or three; a single child left is copied over the root and freed |
| AkIndexes.AkIndex.Write | gplsrc/dh_ak.c:2066-2686 | the map has the data at the key, for every key that names the record and no other, all other keys are as before, and every node is the root, a leaf, free, or on the chain of one large record |
| AkIndexes.AkIndex.PutRecord | gplsrc/dh_ak.c:2090-2677 | the leaves have the new body at the key and otherwise what they had, the old body is reported, and no large record's chain is touched |
| AkIndexes.AkIndex.Divide | gplsrc/dh_ak.c:2365-2470 | the records are shared out over the new leaves as they fit |
| AkIndexes.AkIndex.InstallLeaves | gplsrc/dh_ak.c:2305-2557 | new nodes hold the new leaves in the place of the old leaf, which is no longer on the chain |
| AkIndexes.AkIndex.SplitLeaf | gplsrc/dh_ak.c:2290-2675 | a leaf that cannot hold the record is replaced and the map updated |
| AkIndexes.AkIndex.Delete | gplsrc/dh_ak.c:2900-3096 | the map is without the key, for every key that names the record and no other, all other keys are as before, and every node is the root, a leaf, free, or on the chain of one large record |
| AkIndexes.AkIndex.TakeRecord | gplsrc/dh_ak.c:2950-3085 | the leaves are without the key and otherwise have what they had, the old body is reported, and no large record's chain is touched |
| AkIndexes.AkIndex.DropLeaf | gplsrc/dh_ak.c:3008-3062 | a leaf that loses its only record goes, and the root collapses to a leaf when one is left |
| AkIndexes.AkIndex.SelectIndex | gplsrc/dh_ak.c:1001-1033 | walking the leaves from the left lists every live key once, each before the next in the order of the bytes |
| AkIndexes.AkIndex.HasRoom | gplsrc/dh_ak.c:3482-3484 | going down to the place of the key decides exactly whether a write or delete can be made without splitting the root |
| AkIndexes.AkIndex.Run | gplsrc/dh_ak.c:2004-3113 | any sequence of writes and deletes is performed up to the first that would split the root, and the index stands for the map those changes make |
| AkRootSplits.SplitRoot | gplsrc/dh_ak.c:3484-3722 | splitting the root leaves two halves that together have its entries with the one replaced, under a root whose keys are the last keys the halves had before |
| AkRootSplits.SearchAfterSplit | gplsrc/dh_ak.c:3196-3226 | after a write or delete has split the root a search comes to the right leaf exactly when the key is not beyond the old root's last key, nor in the gap that a shorter last key of the left half leaves |
| AkRootSplits.GreatestLost | gplsrc/dh_ak.c:3561-3617 | a record with a key beyond all others that splits the root is not found again, though its leaf is in the tree |
| AkFullRoots.LastEntryGrows | gplsrc/dh_ak.c:3482-3484 | when a key greater than all in the index has no room, the root has entries to be divided, the last is the one that changes, and its new last key is that key |
| AkFullRoots.FullRootLoses | gplsrc/dh_ak.c:3561-3617 | a write of a key greater than all in a sound index that splits the root, whatever nodes it uses, is not found from the new root, though its leaf is under a half |
| AkFullRoots.FillUp | gplsrc/dh_ak.c:2004-3113 | any list of more ascending keys than an index of two levels can hold, written to an empty index, comes to one that is greater than all in the index and has no room |
| AkFullRoots.CountsAscend | gplsrc/dh_ak.c:3378-3412 | there is such a list |
| AkFullRoots.Bounded | gplsrc/dh_ak.c:3482-3484 | an index of two levels never has more than 200 times 4096 keys |
| AkScans.FromAKey | gplsrc/dh_ak.c:1358-1413 | from a key that was returned a scan goes to the least greater or the greatest smaller live key, or stops if there is none, whether or not the key is still live |
| AkScans.FromTheLeft | gplsrc/dh_ak.c:1414-1465 | from the left edge a scan to the right starts with the key itself, and a scan to the left with the greatest smaller one |
| AkScans.FromTheRight | gplsrc/dh_ak.c:1414-1477 | from the right edge a scan is right if and only if the key is still live or nothing lies beyond it, or for a scan to the left nothing lies before it |
| AkScans.BeyondTheRight | gplsrc/dh_ak.c:1418-1424 | when it is not right, a scan to the right brings the key after the next one and a scan to the left the next one |
| AkScans.RightEdgeSkips | gplsrc/dh_ak.c:1418-1424 | a concrete index in which a scan from the right edge passes over a key |
| AkScans.AkScan.constructor | gplsrc/dh_ak.c:1320-1331 | a position that has not been used searches again |
| AkScans.AkScan.Survives | gplsrc/dh_ak.c:1319-1331 | any number of writes and deletes leaves the position good, because none is made without changing the stamp |
| AkScans.AkScan.SelectValue | gplsrc/dh_ak.c:1156-1187 | looking up a value finds it if and only if it is live, and the position is at an edge if and only if it lies beyond every live key |
| AkScans.AkScan.SetEdge | gplsrc/dh_ak.c:1631-1683 | the position stands at the greatest or the least live key, or at both edges of an empty index |
| AkScans.AkScan.Locate | gplsrc/dh_ak.c:1319-1331 | the cached position is used only with an unchanged stamp, and is then where the key is; otherwise the key is searched for |
| AkScans.AkScan.Move | gplsrc/dh_ak.c:1344-1478 | the step goes to the record the edges and the direction call for, across leaves if need be |
| AkScans.AkScan.Scan | gplsrc/dh_ak.c:1319-1535 | after a returned key the scan brings the nearest live key on that side with its data, or the edge if there is none; likewise from the left edge, and from the right edge while its key is live |

## Left out

- DhFiles.DhFile.Read: the id it reports is one that the file lists and names the record; which casing a record is stored under is not part of the map.
- DhFiles.DhFile.Write: does not keep longest_id or the statistics; nothing in the model depends on them.
- DhFiles.DhFile.Delete: does not keep the statistics.
- DhFiles.DhFile.Clear: waiting for other processes' selects is not modelled, nor clearing the indices.
- DhFiles.DhFile.Select: one select list is modelled; in the protocol each process has one, and each holds off resizing in the same way.
- LockTables.LockTable.GetLock: one attempt is modelled; how long an attempt is repeated, the owner field and the scan statistics are not.
- LockTables.LockTable.FreeLock: the reader count left behind in a freed cell is not described, since nothing reads it.
- Progress.NoDeadlock: takes a lock that nobody holds incompatibly to be granted, which gplsrc/dh_file.c:650-651 can refuse; LockTheorems.NoDeadlock has the table in it.
- LockTheorems.NoDeadlock: says that some process can go on, and SystemEndings.SystemCanRest that all can finish, not that every process is served whatever the scheduler does. The locks on index files (AKGlock, AKRlock in gplsrc/dh_ak.c), which share the table, are not in the joint model.
- RecordCounts.StepDrift: the load that is stored beside the record count is not part of the protocol; DhFile has it, for one process. An interrupted select is likewise only in DhFile.
- AkIndexes.AkIndex.Write: requires that the root need not be split (the test at gplsrc/dh_ak.c:3484 is false if it is made), so trees have at most two levels. The sorted-map property does not carry over to trees of three, as AkRootSplits.GreatestLost shows; what happens in them after the root has split is not modelled.
- AkRootSplits.SplitRoot: works on the three nodes it writes, not on a whole index; their numbers are parameters.
- AkIndexes.AkIndex.Delete: requires the same of the key that replaces a leaf's deleted last key.
- AkIndexes.AkIndex.Read: a place in a leaf is the number of the record, where the source keeps its byte offset; the two determine one another.
- AkOrder.Compare: only left-justified order; right-justified order mixes numbers and text and is not transitive.
- AkScans.AkScan.Survives: the update stamp is unbounded; the source's 32-bit stamp would have to come round exactly between two scans.
- Failure paths: a full disk, failed reads and writes, failed allocation, invalid byte counts, and recovery after a crash.
- File versions 0 and 1, whose links are byte offsets and whose files are limited to 2 Gb; links are block numbers here.
- The bit mixing of the hash and byte-level layouts: the hash is an arbitrary function and a record is a value with a size; the upper-case table is that of ASCII letters.
- 32-bit wrap-around of the update count and of the load, which is exact integer division where the source divides floating-point numbers and truncates.
- Triggers, journalling, encryption, the record cache, file-handle rotation, and the program that maintains the indices from within a write or delete.
- Terminal, network files, configuration, messages and interpreter dispatch.
