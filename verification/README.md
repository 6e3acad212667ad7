# The fsx600 file system

This project models the fsx600 file system of `homework.c` and proves what it keeps, what it computes and where it
fails. A volume is a disk of 1024-byte blocks, two bitmaps, an inode table and a superblock, all changed in place
(`Volumes.Volume`). On it run the calls of the file system: create, mkdir, read, write, truncate, unlink, rmdir, rename,
chmod, utime, statfs, and mounting. `mkfs-hw3.c` supplies the first image, `fsck.hw3` the meaning of "consistent", and
`read-img.c` a second traversal to compare the checker's with.

The invariant (`Consistency.Inv`) has four parts. Blocks: the marked blocks are the metadata region and the owned blocks,
each owned block hangs from one place of one file, and every unmarked block is all zero. Files: the pointers of an inode
are a dense prefix over the six direct pointers, the indirect block and the double-indirect tables, and cover the size.
Inodes: the marked ones are inode 0 and those in use, and the others have no pointers. Names: the directories form a tree
in which every inode in use but the root has one entry, with the right flag, and names are unique. `Consistency.Clean`
adds that nothing is marked that is not in use. Each volume carries, as proof-only state, the sets that its bitmaps stand
for, the place every block hangs from, and for every inode its pointer tree, its directory entry and its depth.

## How it is organised

- `Bytes`, `Bitmaps`, `Codec`, `DiskBytes`: bytes, the bit functions, the on-disk records with their encodings, and where
  each field lies.
- `FileTrees`, `Volumes`, `Consistency`: pointer trees, the volume with its allocators and `update_disk`, the invariant.
- `Writing`, `WriteSteps`, `FileWrite`: `write_helper` and the three tiers of `fs_write`. `Reading`: the same for
  `fs_read`. `Truncating`: `fs_truncate`, with the loop variable that its two nested loops share.
- `FileContents`, `FileBlockLists`: the checker's flat view of a file. `Mounted`: write and truncate on a consistent
  state. `Behind`, `Metadata`: `fs_write` on an inode, what it leaves on the disk when it runs out of space, and what the
  metadata regions of a disk record.
- `Accounting`, `Budget`: how many blocks a file owns, a write takes and a truncate gives back; `fs_statfs`.
- `Paths`, `Names`, `NameChanges`, `DirSteps`: `strtok`, `basename` and `dirname`; path resolution; what one changed
  entry does to all paths and to the invariant.
- `DirOps`, `FileCalls`, `Unlinking`, `Rmdir`, `Moving`, `ModeCalls`: the calls.
- `FileLaws`, `Runs`, `RoundTrips`: sequences of calls. `Images`: mkfs and fs_init. `Fsck`, `ReadImg`: the two traversals.
- `Utf8`: the names that the checker can decode, and the texts that they encode.
- `Guarantees`: what the invariant says in terms of disk, bitmaps and paths, and a session from mkfs to fsck.
- `Examples`, `PathExamples`: short runs from mkfs on that show where the code fails.

## What the code does not do

- `fs_truncate` uses one loop variable for its two nested loops over the double-indirect block, so it releases the first
  518 data blocks and 3 pointer blocks of a longer file and loses the rest (`Budget.TruncateCost` and
  `Budget.TruncateSize`, both directions; `Examples.TruncateLong`).
- A write for which there is not enough space keeps the size, but has already replaced the bytes up to the end of the
  file (`Mounted.Wrote`), and has marked all blocks. Those that it had not linked to the file on the disk are lost. How
  many depends only on the number of data blocks of the file and on how many blocks it owns when the disk is full
  (`Mounted.WriteCost`, `Accounting.Kept`; `Examples.FillDisk`).
- Such a write skips update_disk. Unless no block was free, the disk is then out of date, and stays so until a call
  updates it (`FileCalls.FsWrite` and `Runs.Run`, both directions). Worse, a completed indirect block or second-level table
  that was on the disk before has been replaced there, so that the inode on the disk leads to blocks that the bitmap on
  the disk has free (`Behind.Exposure` says how many, if any). A remount then hands these blocks out again
  (`Images.Remount`, both directions; `Examples.HandOutTwice`).
- A write that would pass the greatest file size returns fewer bytes than requested, although homework.c:537 promises
  exactly the number requested (`FileCalls.FsWrite`, both directions; `Examples.WriteShort`).
- `fs_chmod` and `fs_mkdir` take the type bits of the mode as they come: a directory that is given those of another type
  is no longer one (`ModeCalls.FsChmod` and `ModeCalls.FsMkdir`, both directions; `PathExamples.ChmodRoot` and
  `PathExamples.MkdirFile`).
- Nothing can be created below the tenth component of a path (`Guarantees.NoDeepCreate`, `Runs.RunShort`).
- The root, and a path of more than ten components, is its own parent to path resolution (`Paths.ParentRoute`). So
  `fs_rmdir` of such a path frees the directory, looks for its entry in block 0 and leaves it where it is, which no
  consistent state allows (`Rmdir.FsRmdir`, both directions; `PathExamples.RemoveRoot`). `fs_unlink` of such a path
  empties the file and leaves its entry (`Unlinking.FsUnlink`, both directions; `PathExamples.UnlinkDeep`). `fs_rename`
  looks in the inode itself for an entry with its leaf, and returns 0 although there may be none (`Moving.FsRename`, both
  directions; `PathExamples.RenameRoot`).
- mkfs makes a usable image exactly from five blocks on (`Images.LayoutFits`).
- The checker decodes all 28 bytes of the name of every valid entry as strict UTF-8, so it stops with an error on
  consistent images with other names (`Fsck.Check`, both directions; `Examples.CheckBadName`).
- The last loop of the checker over the block map runs past the map's end on some images (`Fsck.Check`,
  `Guarantees.OverrunExample`).

## Model

| member | source | states |
|---|---|---|
| Bytes.WordRoundTrip | fsx600.h:30-35 | a 32-bit field read from its bytes is the number that was stored |
| Bytes.WordIsLittle | fsx600.h:30-35 | the bytes that a word is read from are its base-256 digits, the least significant first |
| Bytes.WordBytesAre | fsx600.h:30-35 | and so are the bytes that are written |
| Bytes.FromByteCounts | fsx600.h:30-35 | a byte stands for its place in the order of the 256 bytes |
| Bytes.BinOfByte | homework.c:40-51 | the binary digits of that number are the bits of the byte |
| Bitmaps.SetIsAdd | homework.c:40-43 | setting bit i adds i, and nothing else, to the set that the bitmap stands for |
| Bitmaps.ClearIsRemove | homework.c:44-47 | clearing bit i removes i, and nothing else |
| Bitmaps.BitTest | homework.c:48-51 | the test of bit i is true exactly when i is in the set |
| Bitmaps.StandsForUnique | homework.c:40-51 | a bitmap stands for one set only |
| Bitmaps.MapDetermined | homework.c:40-51 | a set and a length determine the bytes of the bitmap |
| Codec.PtrsRoundTrip | homework.c:580-590 | a pointer block that was written is read back as the same 256 pointers |
| Codec.PtrsOfZero | homework.c:568-581 | an all-zero block is a table of 256 null pointers |
| Codec.EntriesRoundTrip | fsx600.h:20-25 | a directory block is read back as the 32 entries that were written, bit fields included |
| Codec.EntriesOfZero | homework.c:323-328 | an all-zero block is a directory without valid entries |
| Codec.InodesRoundTrip | fsx600.h:42-53 | a block of the inode region is read back as the 16 inodes that were written, signed sizes included |
| Codec.SuperRoundTrip | fsx600.h:29-39 | the superblock is read back as written |
| DiskBytes.SuperBytes | fsx600.h:29-39 | the six fields of the superblock are at bytes 0, 4, 8, 12, 16 and 20 |
| DiskBytes.EntryBytes | fsx600.h:20-25 | the flags of a directory entry are the low two bits of its first word, the inode number the others, and the name is in the 28 bytes behind |
| DiskBytes.InodeBytes | fsx600.h:42-53 | the fields of an inode are at bytes 0, 2, 4, 8, 12, 16, 20, 44 and 48 of its 64 |
| DiskBytes.BitIsDigit | homework.c:40-51 | bit i of a bitmap is binary digit i % 8 of byte i / 8 |
| Codec.ModeBits | homework.c:348-366 | adding S_IFREG never makes a directory; adding S_IFDIR makes one exactly if the mode brings no other type bit |
| Codec.OrBitDigits | homework.c:348-381 | the or with a type bit sets this binary digit of the mode and changes no other |
| Codec.DirModeDigits | homework.c:118-119 | a mode is that of a directory exactly if digit 14, of the digits 12 to 15, is set alone |
| Volumes.Volume.constructor | homework.c:59-79 | after mounting, the memory holds the bitmaps and inodes that are on the disk |
| Volumes.GetNextInode | homework.c:234-243 | returns the least unmarked inode, or -ENOSPC exactly when all are marked |
| Volumes.GetNextBlock | homework.c:245-255 | returns the least unmarked block, or -ENOSPC exactly when all are marked |
| Volumes.TakeBlock | homework.c:511-515 | the block taken was unmarked, lies in the data region and is all zero, and is the only one that becomes marked |
| Volumes.ReleaseBlock | homework.c:681-682 | the block becomes unmarked and all zero, and no other block changes |
| Volumes.UpdateDisk | homework.c:257-267 | the metadata regions hold what is in memory, and no data block and not the superblock changes |
| Writing.CopyIn | homework.c:519-529 | the buffered block becomes its splice with the request, and the accumulators pass exactly this block |
| Writing.WriteBlock | homework.c:509-531 | one turn of write_helper fills and stores the block, or fails with no block left and nothing changed |
| Writing.WriteBlocks | homework.c:502-532 | a changed pointer implies that the write-back test holds; on failure every block is marked |
| Writing.WriteHelper | homework.c:493-534 | the region becomes dense up to what the request needs or the disk gives, spliced with the request, and nothing else changes |
| WriteSteps.GoingFill | homework.c:560-582 | write_helper carries a partial write from the first block of its region to the first block after it |
| FileWrite.WriteDirect | homework.c:559-564 | the first tier, in both outcomes |
| FileWrite.WriteSingle | homework.c:579-590 | the second tier; the indirect block on the disk ends equal to the buffered one |
| FileWrite.WriteTable | homework.c:608-639 | one turn of the loop over the second-level tables, with its conditional write-back |
| FileWrite.WriteDouble | homework.c:591-643 | the third tier; the double-indirect block on the disk ends equal to the buffered one |
| FileWrite.WriteTiers | homework.c:557-646 | all tiers: everything that fits is written, or the disk is full, and what has reached the disk is a well-formed file of a known number of blocks, given how many of the file's blocks, in order, had been allocated |
| FileContents.FileDataIsBytes | fsck.hw3:83-105 | the checker's concatenation of blocks is the byte sequence of the pointer tree, cut to the size |
| FileBlockLists.FileBlocksAre | fsck.hw3:107-118 | the checker's list of the blocks of a file holds each of its blocks, once |
| FileBlockLists.FileBlocksIs | fsck.hw3:107-118 | on every image the list holds exactly the non-null pointers of the inode, the indirect block, the double-indirect block and its tables |
| Consistency.FileStepKeepsInv | homework.c:544-739 | a change to one regular file that leaves it well formed keeps the whole invariant |
| Mounted.WrittenBytes | homework.c:519-529 | the bytes of the file after a write are the old ones with those of the request in place of the range written |
| Mounted.FailedCost | homework.c:509-514 | a write that fails had fewer free blocks than the file lacks, has marked all of them, and loses exactly those that the closed form gives |
| Mounted.DoneCost | homework.c:557-649 | a write that goes through had as many free blocks as the file lacked, takes exactly these and loses none |
| Mounted.CleanCost | homework.c:557-646 | when nothing is marked that is not in use, the size of a file tells the number of its data blocks and of all its blocks |
| Behind.WriteInode | homework.c:553-650 | in every state: the contents after a successful and after a failed write, the invariant, the blocks taken and lost (Mounted.FailedCost, Mounted.DoneCost), and, after a failure, what the disk is left with (Behind.IsLeftBehind) |
| Behind.SeenFile | homework.c:589-604 | after a failed write the inode from before leads to a well-formed file on the disk, with the blocks that a completed pointer block has gained |
| Behind.ExposedCount | homework.c:589-638 | exactly how many blocks the inode table on the disk leads to that the bitmap on the disk has free, from the data blocks before, the indirect block before, and the free blocks; only the file itself has such blocks |
| Behind.NoneExposed | homework.c:64-79 | if some consistent state has the bitmaps and the inode table of s and this disk, no block is exposed and the free ones are zero |
| Behind.Recovers | homework.c:64-79 | and if so, some does |
| Behind.IsLeftBehind | homework.c:596-604 | after a write that runs out of space the metadata blocks are as before; the number of exposed blocks; what a remount would find is consistent exactly if there are none and the free blocks are zero; if no block was free, no bitmap and no inode has changed |
| Mounted.StepOthers | homework.c:544-739 | a write or truncate of one file changes no other file |
| Mounted.MetaKeepsInv | homework.c:257-267 | update_disk changes nothing that the file system is made of |
| Mounted.TruncateInode | homework.c:673-738 | the file is empty, what the loops reach is free and zero, the rest has leaked |
| Accounting.SlotsCount | homework.c:557-646 | a file of e data blocks needs e blocks, one more from the 7th on, and one more from the 263rd on plus one for each table |
| Accounting.FootprintCount | fsck.hw3:107-118 | a file owns exactly that many blocks, and the pointer blocks that it has one block early |
| Accounting.SpareAfter | homework.c:566-604 | a write that goes through takes a pointer block only with the data block that needs it |
| Accounting.KeptIs | homework.c:560-643 | how many of the blocks of a file can be reached from the disk when a write has found it full, from the number of its data blocks before and of all its blocks |
| Reading.CopyOut | homework.c:416-429 | one block is copied from the offset on, as far as bytes are left and wanted |
| Reading.ReadHelper | homework.c:398-433 | a region is skipped or copied, and the accumulators pass exactly the region |
| Reading.ReadDouble | homework.c:466-486 | the loop over the second-level tables finishes every read |
| Reading.ReadInode | homework.c:451-490 | reads as many bytes as there are from the offset on and were asked for, puts exactly these into the buffer, and never follows a null pointer |
| Truncating.ClearTable | homework.c:692-699 | releases exactly the blocks of one table, and says where the shared loop variable ends |
| Truncating.ClearDirect | homework.c:676-684 | releases exactly the direct blocks and nulls the pointers |
| Truncating.ClearTables | homework.c:709-726 | the loop whose variable the inner loop overwrites ends, and has released the first table and its blocks only |
| Truncating.ClearFile | homework.c:673-730 | everything that truncate releases, and nothing else, is unmarked and zero |
| Truncating.ClearedAll | homework.c:705-730 | truncate reaches every block of a file exactly if it has at most 518 data blocks |
| Budget.FsStatfs | homework.c:840-865 | the free count is the number of unmarked blocks |
| Budget.ClearedCount | homework.c:673-730 | truncate releases as many blocks as a file of min(c, 518) data blocks owns |
| Budget.TruncateCost | homework.c:658-739 | truncate loses blocks exactly if the file has more than 518 data blocks; otherwise it gives the file back whole, and then exactly 521 blocks |
| Budget.TruncateSize | homework.c:658-739 | when nothing is marked that is not in use, truncate loses nothing exactly if the size is at most 518 * 1024 |
| Budget.StaysClean | fsck.hw3:215-225 | a step that loses no block leaves nothing marked that is not in use |
| Paths.Parse | homework.c:103-114 | the names are the first ten components, each cut to 27 bytes |
| Paths.TokensAre | homework.c:106-113 | text without a slash is one component, and a slash separates |
| Paths.CutIs | homework.c:109-110 | a component is cut to its first 27 bytes |
| Paths.RouteIs | homework.c:140-152 | a path is resolved by its first ten components, each cut; a leading "." is skipped |
| Paths.SplitPath | homework.c:224-232 | the leaf is the last component, cut to 27 bytes, and the parent holds the others; a path of one component has the parent "/" or "." |
| Paths.SplitTokens | homework.c:224-232 | the leaf is the last component and the parent has the others, whatever slashes are repeated or trail |
| Paths.SplitRoute | homework.c:103-152 | a path of one to ten components is resolved by its parent's names and then its leaf |
| Paths.LongRoute | homework.c:106-113 | beyond ten components a path and its parent are resolved by the same names |
| Paths.ParentRoute | homework.c:103-152 | a path is resolved by the names of its parent exactly if it is the root or has more than ten components, and by its parent's names and its leaf exactly if not |
| Names.FindLive | homework.c:140-152 | a path leads to an inode in use, or fails with -ENOENT or -ENOTDIR |
| Names.FindIsWalk | homework.c:140-152 | a path leads to an inode exactly if its names link the root to it, entry by entry |
| Names.FindFails | homework.c:116-152 | it fails with -ENOTDIR exactly if a name is asked of something that is not a directory |
| Consistency.CStrIs | homework.c:127 | a name is compared up to its first zero byte |
| DirSteps.StrCpyIs | homework.c:907-912 | strcpy writes the name and a zero byte, and leaves the bytes behind |
| Names.PathUnique | fsck.hw3:180-187 | no two paths lead to the same inode |
| Names.PathToReaches | fsck.hw3:223-225 | every inode in use is reached by a path from the root |
| NameChanges.FindCreated | homework.c:315-321 | after a new entry exactly one more path resolves, and all others as before |
| NameChanges.FindRemoved | homework.c:762-773 | after the removal of an entry the path and all below it fail, and all others resolve as before |
| NameChanges.FindRenamed | homework.c:907-919 | after a rename the new name leads where the old one led, with everything below, and all others as before |
| DirSteps.CreateKeepsInv | homework.c:300-330 | a new inode, entry and directory block keep the invariant |
| DirSteps.RemoveKeepsInv | homework.c:762-826 | removing an entry with its inode and blocks keeps the invariant |
| DirSteps.RenameKeepsInv | homework.c:907-919 | renaming an entry keeps the invariant |
| DirSteps.FindAvoids | homework.c:806-813 | a path that resolves still does while an empty directory off it is being removed |
| DirOps.Lookup | homework.c:116-138 | returns the inode of the first valid entry with the name, -ENOENT exactly if there is none, and -ENOTDIR exactly for what is no directory |
| DirOps.Translate | homework.c:140-152 | returns where the path leads; on a consistent volume an inode in use, -ENOENT or -ENOTDIR |
| DirOps.CreateNode | homework.c:269-328 | the result code for every path; first-fit inode and block; a failure changes nothing |
| DirOps.Create | homework.c:269-333 | exactly the path is added, in the parent's first free entry; the new inode is as given and empty; the volume stays consistent exactly if the mode agrees with isDir |
| FileCalls.FsRead | homework.c:442-491 | each error code exactly when it is due, how many bytes are read, and which |
| FileCalls.FsWrite | homework.c:544-651 | each error code exactly when it is due; every byte of the file and every field of the inode after a successful and after a failed write; all other files and all paths unchanged; the exact condition of failure and of a write that is cut short; the blocks taken and lost; after a failure the disk still records the state before, which is the one in memory exactly if no block was free |
| FileCalls.BehindRecords | homework.c:596-604 | from a disk that records the state before: after a write that runs out of space it still does, and it records the state after exactly if no block was free |
| FileCalls.FsTruncate | homework.c:658-739 | each error code exactly when it is due, the empty file and every field of its inode, all other files and all paths unchanged |
| FileLaws.WriteRead | homework.c:442-651 | reading back the range that a write has written gives the bytes that were written |
| FileLaws.TruncateRead | homework.c:442-739 | after a truncate nothing can be read |
| FileLaws.CreateRead | homework.c:348-491 | nothing can be read from a new file |
| Unlinking.PathEntry | homework.c:754-764 | a path that resolves has one entry in its parent, unless it is the root or has more than ten components |
| Unlinking.EntryFound | homework.c:757-764 | the loop over the entries of the parent finds that entry, in a block that can be written |
| Unlinking.UnlinkEntry | homework.c:757-773 | the loop clears the one entry with the name and frees its inode, or, where there is none, changes nothing |
| Unlinking.FsUnlink | homework.c:745-778 | for every path: each error code exactly when it is due; exactly the path and its entry are removed, the inode is free, and so are the blocks that truncate reaches; of the other inodes only the parent's time changes; a path of more than ten components keeps its entry, and its file is just emptied; the path is gone exactly if it has at most ten |
| Rmdir.RmdirWalk | homework.c:803-813 | the parent is found although the directory has already lost its block |
| Rmdir.FsRmdir | homework.c:783-833 | for every path: each error code exactly when it is due; exactly the path and its entry are removed, and the inode and the block are free; of the other inodes only the parent's time changes; the volume stays consistent exactly if the path is neither the root nor of more than ten components |
| Rmdir.OwnParentReady | homework.c:801-822 | for the root and for a path of more than ten components the entry is looked for in block 0, and not found |
| Rmdir.OrphanBreaks | homework.c:801-825 | a directory that was freed while its path still leads to it leaves no consistent state, whatever owners and places are chosen |
| Moving.FsRename | homework.c:880-925 | -ENOENT exactly if src does not resolve, else -EEXIST exactly if dst does, else -EINVAL exactly if the parents differ; the leaf of src in the parent of src is looked for, and that is src unless src is the root or has more than ten components; if it is there, it is at dst with all below, all other paths and contents are unchanged, and only the entry's name and the two times of change differ; if not, nothing changes |
| Moving.RenameReaches | homework.c:893-925 | after a rename that returns 0, dst leads where src led exactly if src is neither the root nor of more than ten components |
| Moving.SourceDir | homework.c:893-905 | what is searched for the source is a directory if src has at most ten components; otherwise exactly if src leads to a directory |
| Moving.RootSource | homework.c:893-925 | a rename of "/" finds nothing to rename |
| ModeCalls.FsCreate | homework.c:348-351 | each error code exactly when it is due; every field of the new inode: its mode has digit 15 set and the others as given, so that it is a regular file |
| ModeCalls.FsMkdir | homework.c:363-366 | for every mode, each error code exactly when it is due, every field of the new inode, whose mode has digit 14 set and the others as given, and that the volume stays consistent exactly if the mode brings no other type bits |
| ModeCalls.CreateCodes | homework.c:269-317 | create fails exactly if the parent does not resolve, is no directory, has the name already, or lacks a free entry, inode or block |
| DirSteps.ModeBreaksInv | homework.c:381 | a directory with the type bits of something else makes the state inconsistent, whatever owners and places are chosen |
| ModeCalls.FsChmod | homework.c:375-385 | the new mode, digit by digit, and that the volume stays consistent exactly if a directory keeps its type |
| ModeCalls.FsUtime | homework.c:387-396 | the new time of change, and nothing else |
| Metadata.HoldsDetermined | homework.c:59-79 | a disk determines the bitmaps and inodes that a mount finds |
| Metadata.SyncedRecords | homework.c:59-79 | a remount finds what is in memory exactly if the disk records the state in memory |
| Metadata.RecordsUnique | homework.c:59-79 | a disk records one inode table, one set of blocks and one set of inodes |
| Images.Mount | homework.c:59-79 | mounting the image of a consistent state gives that state |
| Images.Remount | homework.c:59-79 | fs_init on any disk that records a state finds its inode table and bitmaps; the result is consistent exactly if some state with these and this disk is; if the state is the one in memory, it is rebuilt |
| Images.LayoutFits | mkfs-hw3.c:75-99 | regions in order, root directory inside the disk, a bit for every block and inode: exactly from five blocks on |
| Images.NewStateOk | mkfs-hw3.c:101-117 | an empty root directory on zero blocks is consistent |
| Images.Mkfs | mkfs-hw3.c:42-136 | the image, byte by byte, and that it is that of a new consistent file system in which only the root resolves |
| Runs.Perform | homework.c:931-946 | every call of the operations vector that changes the file system has its effect and keeps the invariant |
| Runs.Apply | homework.c:931-946 | a call that succeeds brings the disk up to date (a rename if it finds an entry); no other call writes metadata, and only a write that takes the last free block and fails leaves memory ahead of the disk |
| Runs.Run | homework.c:931-946 | every sequence of calls leads through consistent states only; the disk records exactly the state that OnDisk gives, and a remount would find what is in memory exactly if that is the last one |
| Runs.RecordedNext | homework.c:931-946 | which state the disk records after one more call |
| Runs.EffectLeaks | homework.c:269-925 | a call loses blocks exactly if it is a write that runs out of space where the closed form is not 0, or a truncate beyond 518 blocks |
| Runs.RunLeaks | homework.c:269-925 | a run loses blocks exactly if one of its calls does, and nothing that is lost is ever found again |
| Runs.RunShort | homework.c:103-114 | no run makes anything more than ten names deep |
| Runs.EffectClean | homework.c:269-925 | any other call, unless a write without space, leaves nothing marked that is not in use and no file with more blocks than its size needs |
| Runs.RunClean | homework.c:269-925 | so does a run of such calls |
| RoundTrips.RoundTrip | test-q2.py:119-129 | from every state: create, any writes, and unlink restore both bitmaps, all data blocks but the parent's, all paths and contents, exactly if no call loses a block; if all writes succeed, exactly if the file has at most 518 blocks in the end |
| Fsck.BeneathNext | fsck.hw3:175-201 | an entry adds its inode and what lies below it to what dir_iter finds, and none of that twice |
| Fsck.CheckInode | fsck.hw3:180-199 | on any image, reports exactly the faults of the inode number and of its blocks: free ones, ones seen or listed before, and metadata blocks; or Python stops as a number is out of range |
| Fsck.ListFaultsAre | fsck.hw3:189-199 | which faults a list of blocks has |
| Fsck.NoFaultsHere | fsck.hw3:180-199 | an inode in use that was not found yet has none of these faults |
| Fsck.DirIter | fsck.hw3:167-201 | on a consistent image the recursion ends; it stops with an error exactly if some name cannot be decoded, and otherwise finds everything below the directory once, and reports nothing |
| Fsck.CheckMaps | fsck.hw3:215-225 | on any image, exactly the disagreements of the bitmaps with what was found are reported, or Python stops with an index error |
| Fsck.MapFaultIs | fsck.hw3:215-225 | on a consistent image these are exactly the leaked blocks |
| Utf8.AsciiDecodes | fsck.hw3:27-28 | every name of plain ASCII can be decoded, with the zero bytes after it |
| Utf8.StrayByte | fsck.hw3:27-28 | a byte that starts no character stops the decoder |
| Utf8.DecodesIff | fsck.hw3:27-28 | the decoder accepts exactly the encodings of the sequences of code points from 0 to 0x10FFFF without the surrogates |
| Utf8.CharEncoded | fsck.hw3:27-28 | a character that it accepts is the encoding of one code point |
| Utf8.EncodedChar | fsck.hw3:27-28 | and the encoding of every code point is one character |
| Fsck.NamesEncoded | fsck.hw3:27-28 | all names can be decoded exactly if each is the encoding of some text |
| Fsck.Check | fsck.hw3:130-233 | the report for every consistent image, and exactly when Python stops with an assertion, decoding or index error |
| ReadImg.MarkFile | read-img.c:88-130 | marks exactly the data blocks of the file, and counts no error exactly if all are marked in the image |
| ReadImg.DataListIs | read-img.c:88-130 | on every image these are the non-null pointers of the inode, its indirect block and its tables |
| ReadImg.VisitDir | read-img.c:136-161 | the queue never holds an inode twice and never outgrows its array; without an error every valid entry names a marked inode that is in the queue |
| ReadImg.Walk | read-img.c:79-162 | on every image with pointers in range the traversal ends, and if it has no error everything it saw is marked; on a consistent image it has no error and marks exactly the inodes in use |
| ReadImg.ReadImage | read-img.c:33-162 | the same for every image of a consistent state for whose inodes and data blocks the marking arrays have bits, and the blocks marked are its data blocks |
| ReadImg.Agree | read-img.c:79-162 | both traversals find the same inodes, unless the checker stops with an error before it has seen all |
| Guarantees.FreeStorage | homework.c:300-328 | every unmarked block is an empty directory and a table of nulls, and every unmarked inode has no pointers |
| Guarantees.MarkedInodes | fsck.hw3:223-225 | the marked inodes are inode 0 and those that a path leads to |
| Guarantees.OnePath | fsck.hw3:185-187 | each by one path only |
| Guarantees.OneEntryEach | fsck.hw3:175-187 | each, but the root, by one valid entry, whose flag agrees with its mode |
| Guarantees.UniqueNames | homework.c:281-282 | names are unique among the valid entries of a directory, and each can be looked up |
| Guarantees.SplittersAgree | homework.c:274-282 | translate of a path is lookup of its leaf in translate of its parent |
| Guarantees.NoDeepCreate | homework.c:103-114 | a path of more than ten components is never created |
| Guarantees.DisjointFiles | fsck.hw3:189-199 | blocks of files are marked, in the data region, listed once, and no two files share one |
| Guarantees.MarkedBlocks | fsck.hw3:215-221 | the marked blocks are the metadata, the blocks of files, and those that have been lost |
| Guarantees.Conservation | homework.c:852-862 | in every state the marked blocks are as many as the metadata blocks, the blocks of all files and the lost blocks; when nothing is marked that is not in use, the sizes of the files tell their number |
| Guarantees.OverrunExample | fsck.hw3:219-221 | the index error happens on an image of 8 MB and not on one of 1 MB |
| Guarantees.DepthSmall | fsck.hw3:200-201 | where no path of more than ten names leads anywhere, no directory is more than ten deep |
| Guarantees.Session | fsck.hw3:130-233 | mkfs, mount and any run: the disk records the state that OnDisk gives; if that is the last one, fsck reports exactly the blocks that have been lost, and none exactly if no call has lost any |
| Examples.FillDisk | homework.c:560-643 | a write that fills a new file system runs out of space and loses as many blocks as the closed form gives |
| Examples.FillExamples | homework.c:582-586 | on 14 blocks that is two, on 12 none |
| Examples.TruncateLong | homework.c:705-730 | a file of 519 blocks can be made, and truncating it loses blocks |
| Examples.CheckBadName | fsck.hw3:27-28 | a file whose name starts with the byte 255 can be made, and the checker stops on it |
| Examples.WriteShort | homework.c:535-551 | a write of one block more than a file can have returns fewer bytes than requested, although there is space |
| Examples.HandOutTwice | homework.c:589-604 | after a write that runs out of space and a remount, get_next_block returns a block of the file |
| PathExamples.RemoveRoot | homework.c:783-833 | removing the root of a new file system returns 0, and no consistent state is left |
| PathExamples.RenameRoot | homework.c:880-925 | renaming the root of a new file system returns 0, and the new name leads nowhere |
| PathExamples.ChmodRoot | homework.c:375-385 | giving the root of a new file system the type bits of a regular file returns 0 and leaves an inconsistent state |
| PathExamples.MkdirFile | homework.c:363-366 | so does making a directory with these bits |
| PathExamples.UnlinkDeep | homework.c:745-778 | unlinking a file ten directories deep by a path of eleven components returns 0, and the path still leads to it |

## Left out

- I/O errors: block_read and block_write always succeed, as the code leaves on most failures.
- The clock, the user and group of the caller and the padding of inodes: parameters or kept as they are.
- Directory listing and getattr: plain copies of fields or a plain loop.
- The direct pointers of an inode are passed to write_helper and read_helper as a buffer that is copied back, not as a pointer into the inode.
- Buffers and their memory, and pointer arithmetic into the image in mkfs and read-img: separate arrays that are copied.
- Negative offsets: offsets are natural numbers; the 32-bit accumulators cannot overflow, as no file exceeds 65798 blocks.
- Unlinking.FsUnlink: for a path of more than ten components, requires that block 0, read as a directory, has no valid
  entry, as the code searches it. mkfs makes such a block and no call changes it (`Guarantees.Session`); with other bytes
  there, any inode could be freed.
- Rmdir.FsRmdir: requires the same for an empty directory whose path is its own parent.
- Moving.FsRename: requires that the source's parent is a directory if the checks pass. It is, unless the source has more
  than ten components and leads to a regular file (`Moving.SourceDir`); then the code takes the file's bytes for entries
  and their inode numbers for indices.
- Runs.Run: stops before a call that would do one of these, free a directory that its path still leads to, or give a
  directory other type bits.
- Guarantees.Session: while the disk is out of date it says what the disk records, not what the checker reports of it.
- Images.Mkfs: parsing of the size argument is not modelled, nor sizes that are not a multiple of 1024, which the program rejects after a warning.
- Fsck.Check: on images that are not consistent the checker may not end, and is not modelled; nor is the text that it
  prints. It requires directories at most 900 deep, as Python stops a recursion 1000 calls deep; no run comes near
  (`Guarantees.DepthSmall`).
- ReadImg.ReadImage: requires that the marking arrays, which have one bit for each block in whole bytes, have a bit for
  every inode in use and every data block; otherwise the program writes beyond them. Its final reports are not modelled.
- Crash consistency between two block writes: the code has no order or journal to reason about.
- mktest.c, misc.c, libhw3.c and hw3test.py: a fixed image, the FUSE main program and the test bridge.
