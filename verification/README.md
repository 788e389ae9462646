# FastDIR server: a verified model

This project models the server of FastDIR, a distributed directory service, and
proves what its parts promise each other. It is written in Dafny 4.11; check it
with `dafny verify dfyconfig.toml`.

## What is modelled

**The namespace tree** (`Dentry`, `DentryAccounting`, `DentryOps`, `RenameLaws`,
`DentrySpace`, `DentryTree`, `InodeIndex`, `InodeUpdates`, `Paths`, `PathMeaning`,
`Overdraft`).
A namespace is a heap of directory entries with parent pointers and child sets, an inode
index, entry counters and used bytes. The specification composes create, remove,
move and exchange from elementary changes; `DentryOps.Valid` is what holds between
two operations: parents and children are inverse, every directory has a finite way
to the root, every link count, counter and index entry is exact, and every hard
link points at a real file. Class `DentryTree.Tree` takes the steps of the server
in their order, in place, with rollback, and is proved equal to the specification.
The used bytes are followed by their drift from what the files hold.

**Replication** (`DataThread`, `Replication`, `RequestOutcomes`, `ReplicaStream`). The master resolves
paths, applies requests, numbers and logs the successful ones; a replica resolves
logged inodes. `RequestOutcomes` says when a request succeeds, by what its paths lead
to, and what can be read back from the tree afterwards. The main result is that, after any requests, a replica that applies
the logged records holds the very tree of the master, also when it reads them from
the bytes the master wrote, and also when it opens the log behind the version it has.

**The binlog** (`BinlogText`, `BinlogPack`, `BinlogRoundTrip`, `BinlogScan`,
`BinlogSlices`, `BinlogReader`, `BinlogHints`, `BinlogProducer`, `BinlogProgress`, `ReplayMt`,
`ReplayProgress`). The text codec with its
round trip, the scans that find whole records in any slice of a file, the positioned
reader, which works on the bytes of its files through those scans, the reordering ring
in front of the slave queues with what it keeps and what it gets done, and the replay with parse threads, which refines the
sequential replay.

**File locks** (`Flock`, `FlockOutcomes`, `FlockCancel`), **master election** (`Election`,
`ElectionRecovery`) and **namespace usage subscription** (`NsSubscribe`). Each is a state machine over its steps with results
about every reachable state, beside classes with the loops of the server.

## Where the code does less than one would expect

The model follows the code. These results say exactly when a natural property
holds, each with the guard of the branch that fails.

- A rename to a free name in a directory above the source's own is refused as a
  loop although it would keep the tree (`RenameLaws.RefusalExact`). So the way back
  from a move into a directory below is refused (`RenameLaws.MoveBackExact`,
  `RenameLaws.NoWayBack`).
- A string whose escaped length has more decimal digits than its length is written
  with the number of digits in place of the length (`BinlogText.TextReads`,
  `ReplicaStream.NineTagsLost`).
- The birth time field carries the access time, so a record restores it only when
  both are equal, as they are in every create (`BinlogRoundTrip.RestoredExactly`,
  `BinlogRoundTrip.BirthTimeLost`).
- A record whose body is shorter than 60 bytes is packed but not unpacked
  (`BinlogPack.PackUnpack`, `BinlogRoundTrip.ShortRecordRefused`).
- A version range that wraps past the last ring slot can be parked outside the
  window and stall the producer for good (`BinlogProducer.ParkExact`,
  `BinlogProducer.StalledForGood`, `BinlogProducer.WrapStalls`).
- Cancelling the head of a lock queue wakes nobody, so the next in line can sleep
  on with nothing in its way (`FlockCancel.StepHeadsExact`, with a run for each of the
  three ways it happens).
- A shared request queues behind an overlapping global waiter; an exclusive request
  does not (`Flock.GrantedExactly`).
- An attribute update takes any mode; it keeps the tree only under the condition of
  `InodeUpdates.UpdateValidExact`.
- A file can be brought below zero bytes, and deleting such a file makes the used
  bytes too small for good (`Replication.UsedBytesExact`, `Overdraft.UsedBytesWrong`).
- The root has no printable path, and an entry deeper than 128 is not found by path
  (`Paths.PrintedPathFinds`).
- Opening the reader at a version between two files is refused, and so is opening
  where the first or the last record of a file on the way is longer than 9999 bytes
  (`BinlogReader.Reader.Search`).
- A read that meets a record larger than its buffer leaves the position inside that
  record, and reads from there go on failing (`BinlogReader.Reader.IntegralRead`).

## What stands for the environment

Clocks, the inode generator and failing allocations are parameters. The string
splitter, the character escaper and the skip list are library code; the model gives
them their documented behaviour (empty path parts dropped and at most the first 128
kept, a backslash and a letter for each special character, a map from names to
children). Reading a piece of a file gives as many bytes as asked for or left.

## Model

| member | source | states |
|---|---|---|
| `Dentry.ChainUnique` | src/server/dentry.c:810-819 | parent pointers determine the walk up from a dentry, so the ancestor walk has one answer |
| `Dentry.ChainOfDirs` | src/server/dentry.c:810-819 | the walk up from a directory passes only directories that have children |
| `Dentry.AttachShape` | src/server/dentry.c:632-676 | putting a dentry in place keeps parents and children inverse and sibling names unique |
| `Dentry.DetachShape` | src/server/dentry.c:762-808 | taking a dentry out of its directory keeps parents and children inverse |
| `Dentry.AttachAcyclic` | src/server/dentry.c:1082-1135 | hanging a dentry below a directory that is not below it leaves every directory with a finite way to the root |
| `DentryAccounting.BornNlinks` | src/server/dentry.c:632-676 | a create, hard links included, keeps every link count exact |
| `DentryAccounting.DetachNlinkOk` | src/server/dentry.c:762-808 | a directory that loses a child loses one link; all other link counts stay exact |
| `DentryAccounting.ReleaseTree` | src/server/dentry.c:699-760 | giving up one reference removes the dentry from index and counters exactly when it was the last one, and else keeps a nameless file or a file in place |
| `DentryAccounting.RemoveTree` | src/server/dentry.c:762-808 | removing a name keeps shape, absence of cycles, link counts, index and counters |
| `DentryOps.CreateKeepsValid` | src/server/dentry.c:546-676 | for every request: the tree stays in order after a create, and is unchanged after a failed one |
| `DentryOps.RemoveKeepsValid` | src/server/dentry.c:762-808 | the tree stays in order after a remove, and is unchanged after a failed one |
| `DentryOps.MoveTree` | src/server/dentry.c:1005-1080 | moving to a free name in a directory that is not below the source keeps the tree |
| `DentryOps.MoveOver` | src/server/dentry.c:1005-1080 | moving over a file or an empty directory keeps the tree, also when source and destination are hard links of one file |
| `DentryOps.ExchangeTree` | src/server/dentry.c:925-1003 | exchanging two entries, neither above the other's place, keeps the tree |
| `DentryOps.RenameKeepsValid` | src/server/dentry.c:821-1135 | for every rename request: the tree stays in order, and is unchanged after a failure |
| `RenameLaws.RenameMeaning` | src/server/dentry.c:925-1135 | after a rename the destination name holds what the source name held, the source name holds the old destination (exchange) or nothing (move), and every other name of every directory is as before |
| `RenameLaws.RefusalExact` | src/server/dentry.c:1103-1116 | a rename refused by the ancestor walk would have closed a cycle, except a move to a free name in a directory above the source's own, which would have kept the tree; if and only if |
| `RenameLaws.UpwardMoveExample` | src/server/dentry.c:1103-1116 | moving /a/f to /g is refused as a loop although the moved tree is in order |
| `RenameLaws.ExchangeTwice` | src/server/dentry.c:925-1003 | asking for the same exchange again succeeds and gives the tree back |
| `RenameLaws.MoveBackExact` | src/server/dentry.c:1082-1135 | after a successful move to a free name, asking for the way back succeeds and gives the very tree back, link counts included, when the old directory is the new one or not above it, and is refused as a loop otherwise |
| `RenameLaws.NoWayBack` | src/server/dentry.c:1103-1116 | moving /f to /a/f succeeds and the way back is refused |
| `DentryTree.StepsExchange` | src/server/dentry.c:939-992 | the pointer and child-set changes of an exchange, in source order, add up to swapping the two places |
| `DentryTree.StepsOverwrite` | src/server/dentry.c:1011-1070 | the changes of an overwriting move, in source order, equal removing the destination and then moving |
| `DentryTree.StepsMove` | src/server/dentry.c:1011-1070 | the changes of a move to a free name add up to leaving one directory and entering the other |
| `DentryTree.StepsRemove` | src/server/dentry.c:762-808 | dropping the reference before the name gives the same tree as dropping the name before the reference |
| `DentryTree.Tree.IsAncestorOf` | src/server/dentry.c:810-819 | the walk terminates and answers whether the dentry is on the way to the root |
| `DentryTree.Tree.StoreName` | src/server/dentry.c:893-923 | a failed copy of the name changes nothing; an unchanged name needs no copy |
| `DentryTree.Tree.PlaceDest` | src/server/dentry.c:960-985 | the second half of an exchange either completes or restores the destination directory |
| `DentryTree.Tree.ExchangeDentry` | src/server/dentry.c:925-1003 | all or nothing: success gives the exchanged tree, a failure at any name copy, replacement or insertion gives the old tree, in one directory or two |
| `DentryTree.Tree.MoveDentry` | src/server/dentry.c:1005-1080 | success gives the moved tree, a failed name copy or a failed insertion gives the old tree |
| `DentryTree.Tree.RenameDentry` | src/server/dentry.c:1082-1135 | the whole rename agrees with its specification in code, tree and inode, and changes nothing when it fails |
| `DentryTree.Tree.RemoveDentry` | src/server/dentry.c:678-760 | the reference, index, counter and space changes of a removal |
| `DentryTree.Tree.Remove` | src/server/dentry.c:762-808 | the in-place removal agrees with its specification in code, tree and inode |
| `DentryTree.Tree.Create` | src/server/dentry.c:546-676 | the in-place create agrees with its specification in code, tree and inode |
| `DentrySpace.CreateSettles` | src/server/dentry.c:546-676 | over a create the used bytes keep their distance from what the files hold if and only if no file below zero goes |
| `DentrySpace.RemoveSettles` | src/server/dentry.c:762-808 | a remove changes the distance of the used bytes from what the files hold only when it deletes a file below zero, and then downwards; if and only if |
| `DentryAccounting.DropDrift` | src/server/inode_index.c:214-240 | deleting a dentry moves that distance by exactly what the file was below zero |
| `DentrySpace.RenameSettles` | src/server/dentry.c:1082-1135 | the same for a rename, which may delete the entry it overwrites |
| `InodeUpdates.SizeMeaning` | src/server/inode_index.c:284-343 | without force size and space end take the larger value, with force the given one; mtime and alloc as flagged; all other attributes stay |
| `InodeUpdates.SizeReplays` | src/server/inode_index.c:284-390 | the update record a size request turns into makes the same change when applied in its place |
| `InodeUpdates.QuietSize` | src/server/data_thread.c:1042-1052 | a size request that is not logged changed nothing |
| `InodeUpdates.UpdateValidExact` | src/server/inode_index.c:345-390 | an attribute update keeps the tree if and only if its mode is not a hard link's and does not change whether the dentry is a directory |
| `InodeUpdates.TypeChangeExample` | src/server/inode_index.c:345-390 | an update that gives a file a directory's mode succeeds and breaks the tree |
| `InodeUpdates.SetSizeKeepsValid` | src/server/inode_index.c:284-343 | a size request keeps the tree |
| `InodeUpdates.StatDrift` | src/server/dentry.c:394-399 | new attributes, whatever space they give a file, keep the used bytes in step with the files |
| `InodeUpdates.SetXattrMeaning` | src/server/inode_index.c:485-536 | setting an attribute changes that attribute only, and succeeds exactly when the flags and the limit allow it |
| `InodeUpdates.RemoveXattrMeaning` | src/server/inode_index.c:420-440 | removing an attribute removes it and keeps all others; it fails exactly when there is none |
| `InodeUpdates.SetXattrReplays` | src/server/inode_index.c:485-536 | a successful set has the same effect without its create or replace flag |
| `InodeUpdates.XattrArray.Set` | src/server/inode_index.c:442-536 | the growing array refines the attribute list |
| `InodeUpdates.XattrArray.Remove` | src/server/inode_index.c:420-440 | shifting the array refines removal from the list |
| `InodeUpdates.XattrArray.FindIndex` | src/server/inode_index.c:392-418 | the search finds the first entry of that key |
| `InodeUpdates.XattrArray.Grow` | src/server/inode_index.c:442-483 | growing keeps the attributes and fails exactly at the limit of 64 |
| `InodeIndex.HoldsOne` | src/server/inode_index.c:113-170 | an inode has at most one dentry in the table |
| `InodeIndex.OnlyInItsBucket` | src/server/inode_index.c:172-187 | an inode is in the table if and only if it is in its own bucket |
| `InodeIndex.InodeTable.Search` | src/server/inode_index.c:113-145 | the early exit stops exactly where the inode is or would go |
| `InodeIndex.InodeTable.Find` | src/server/inode_index.c:147-170 | lookup finds a dentry if and only if the table holds one for the inode |
| `InodeIndex.InodeTable.Add` | src/server/inode_index.c:190-212 | adding extends the map by one entry and keeps chains sorted; a duplicate changes nothing |
| `InodeIndex.InodeTable.Delete` | src/server/inode_index.c:214-240 | deleting removes one entry and keeps chains sorted; a missing inode changes nothing |
| `Paths.SplitJoin` | src/server/dentry.c:432-435 | splitting a printed path gives its names back |
| `Paths.PrintedPathFinds` | src/server/dentry.c:460-507 | looking up the printed path of an entry finds that entry if and only if it is not the root, whose printed path is empty, and at most 128 deep |
| `Paths.FoundPathPrints` | src/server/dentry.c:1137-1156 | printing what a path led to gives the path back without empty parts |
| `RequestOutcomes.FindIs` | src/server/dentry.c:460-507 | a path is found if and only if it is absolute and its parts lead, name by name from the root, to that entry |
| `RequestOutcomes.FindParentIs` | src/server/dentry.c:401-458 | the parent of a path is found if and only if all but its last part lead to a directory |
| `RequestOutcomes.FindCodes` | src/server/dentry.c:460-507 | the code of a failed lookup says whether the path is not absolute, there is no root, or where it stops a directory or something else lacks the next name |
| `Paths.GetFullPath` | src/server/dentry.c:1237-1275 | the path is printed unless the depth exceeds 128 or the text with its terminator does not fit |
| `Paths.PrintAndFind` | src/server/dentry.c:1237-1275 | printing succeeds if and only if depth and size fit, and then looking the path up finds the entry, or is refused for the root |
| `PathMeaning.CreateMeaning` | src/server/dentry.c:546-676 | a create adds one name, free before, which holds the new dentry, and changes no other name |
| `PathMeaning.CreateAttributes` | src/server/dentry.c:546-676 | the new dentry carries the attributes, name, inode and link target of the request; it is the only new index entry, or, as a hard link, raises the link count of its file by one |
| `PathMeaning.RemoveMeaning` | src/server/dentry.c:762-808 | a remove takes one name away and changes no other |
| `PathMeaning.FileStaysIffLinked` | src/server/dentry.c:699-760 | a file whose name is removed stays, and stays indexed, if and only if some hard link points at it |
| `PathMeaning.TargetStaysIffReferenced` | src/server/dentry.c:699-760 | removing a hard link keeps its file if and only if the file still has its name or another link |
| `PathMeaning.CreateByPathMeaning` | src/server/data_thread.c:425-461 | after a successful create by path, resolving that path finds the new dentry |
| `PathMeaning.RemoveByPathMeaning` | src/server/data_thread.c:425-461 | after a successful remove by path, resolving that path fails with no entry |
| `PathMeaning.RenameByPathMeaning` | src/server/data_thread.c:519-561 | after a successful rename the new path leads to what the old path led to, and the old path to nothing or, in an exchange, to what the new path led to |
| `RequestOutcomes.CreateExact` | src/server/dentry.c:546-676 | a create succeeds if and only if it has a type, its place is free and its inode number is not taken; it answers that something exists, or that the parent is no directory, if and only if that is the reason |
| `RequestOutcomes.RemoveExact` | src/server/dentry.c:762-808 | a remove succeeds if and only if something without children is at its place, and then reports its inode; something with children and a free place have their own answers |
| `RequestOutcomes.RenameExact` | src/server/dentry.c:821-891 | a rename succeeds if and only if the source is there, flags, types and children at the destination allow it, both are not the same dentry and the ancestor walk does not refuse it |
| `RequestOutcomes.RenameRefusals` | src/server/dentry.c:821-891 | exactly when a refused rename answers no entry, invalid, not empty, exists or loop |
| `RequestOutcomes.CreateByPathExact` | src/server/data_thread.c:425-517 | a create by path succeeds if and only if it has a type, the path is the root of an empty tree or a free name in a directory, its inode number is not taken and, for a hard link, the other path leads to a file |
| `RequestOutcomes.CreateByPathExists` | src/server/data_thread.c:425-461 | a create by path answers that something exists if and only if the path leads to something or the inode number is taken |
| `RequestOutcomes.RemoveByPathExact` | src/server/data_thread.c:425-461 | a remove by path succeeds if and only if the path leads to something without children |
| `RequestOutcomes.RenameByPathExact` | src/server/data_thread.c:519-561 | a rename by path succeeds if and only if both paths name places in directories and the one may become the other |
| `RequestOutcomes.CreateByInodeExact` | src/server/data_thread.c:413-423 | the same for a create whose directory and link source are given by inode |
| `RequestOutcomes.RemoveByInodeExact` | src/server/data_thread.c:413-423 | the same for a remove |
| `RequestOutcomes.RenameByInodeExact` | src/server/data_thread.c:519-561 | the same for a rename |
| `RequestOutcomes.CreateContent` | src/server/dentry.c:546-676 | a create adds one dentry and leaves inode, attributes, link target and extended attributes of every other alone |
| `RequestOutcomes.RemoveContent` | src/server/dentry.c:762-808 | a remove leaves the content of every dentry that stays alone |
| `RequestOutcomes.RenameContent` | src/server/dentry.c:1082-1135 | a rename leaves the content of every dentry that stays alone |
| `RequestOutcomes.RenameKeepsAll` | src/server/dentry.c:925-1080 | a move to a free name and an exchange make no dentry go |
| `RequestOutcomes.UpdateReadsBack` | src/server/inode_index.c:345-390 | an update succeeds if and only if the inode is known; then the selected attributes read as the record says, all others and all else in the tree as before, space and used bytes moved by the selected amount, on the master and on a replica that applies the logged record |
| `RequestOutcomes.SizeReadsBack` | src/server/inode_index.c:284-343 | a size request succeeds if and only if the inode is known; then size, space end, modification time, space and used bytes read as its flags say, and nothing else changed |
| `RequestOutcomes.XattrByInodeReadsBack` | src/server/inode_index.c:420-536 | by inode, exactly when setting or removing an attribute succeeds, and that it then reads as asked, all other attributes and the rest of the tree as before |
| `RequestOutcomes.XattrByPathReadsBack` | src/server/data_thread.c:563-582 | the same of the file that a path leads to, through a hard link or not |
| `RequestOutcomes.XattrsAlwaysOk` | src/server/inode_index.c:442-536 | after any requests no dentry has more than 64 attributes or one attribute twice |
| `DataThread.FindAndFollow` | src/server/dentry.c:1137-1156 | a successful lookup that follows hard links gives a real dentry |
| `Replication.DirByInode` | src/server/data_thread.c:413-423 | the logged parent inode resolves to the very directory that the path led to |
| `Replication.CreateRedone` | src/server/data_thread.c:425-517 | a logged create, hard links included, succeeds again by inode and builds the same tree |
| `Replication.RemoveRedone` | src/server/data_thread.c:413-423 | a logged remove succeeds again by inode and leaves the same tree |
| `Replication.RenameRedone` | src/server/data_thread.c:519-561 | a logged move or exchange succeeds again by inode and leaves the same tree |
| `Replication.UpdateRedone` | src/server/inode_index.c:345-390 | a logged attribute update makes the same change though unselected fields are lost |
| `Replication.XattrRedone` | src/server/data_thread.c:563-582 | a logged attribute change makes the same change though its flags are lost |
| `Replication.SizeRedone` | src/server/data_thread.c:1042-1070 | a logged size request makes the same change as an update |
| `Replication.DealReplays` | src/server/data_thread.c:967-1094 | whatever the master did successfully, the logged record does again on the same tree |
| `Replication.DealSound` | src/server/data_thread.c:967-1048 | every request leaves the tree in order, and a failed one leaves it alone |
| `Replication.StepGrows` | src/server/data_thread.c:1063-1094 | a request either leaves the master alone or logs exactly one record that makes the new tree |
| `RequestOutcomes.StepExact` | src/server/data_thread.c:1054-1094 | the master takes the tree of the outcome, and numbers and logs exactly the successful requests, except size requests that select no field |
| `Replication.ReplicaAgrees` | src/server/data_thread.c:967-1094 | after any requests, applying the logged records from the empty tree succeeds and gives the master's tree |
| `Replication.VersionsConsecutive` | src/server/data_thread.c:1071-1079 | logged versions are 1, 2, 3 and so on without gaps |
| `Replication.UsedBytesExact` | src/server/dentry.c:394-399 | after any requests the used bytes are at most the sum over all files, and equal to it if and only if no request of the run deleted a file below zero |
| `Overdraft.UsedBytesWrong` | src/server/inode_index.c:214-240 | after making a root and a file, taking five bytes from the file and removing it, the used bytes are below the sum |
| `ReplicaStream.LogReadsBack` | src/server/binlog/binlog_reader.c:708-740 | the bytes of a log of writable records are read back record by record |
| `ReplicaStream.StreamAgrees` | src/server/data_thread.c:967-1094 | a replica that reads the master's bytes and applies what it read holds the master's tree |
| `ReplicaStream.WrittenIsLines` | src/server/binlog/binlog_pack.c:231-399 | the bytes written for a log are a file of records with their data versions, as scans and reader require it |
| `ReplicaStream.CatchUp` | src/server/binlog/binlog_reader.c:533-557 | a replica that has the first records of the log and applies what the reader gives behind its version holds the master's tree |
| `ReplicaStream.NineTagsLost` | src/server/binlog/binlog_pack.c:207-219 | a name of nine tag characters is written with length 2 and not read back |
| `BinlogText.UnescapeEscape` | src/server/binlog/binlog_pack.c:126-142 | unescaping undoes escaping |
| `BinlogText.EscapePlain` | src/server/binlog/binlog_pack.c:126-142 | escaped text holds no tag character, line end or zero |
| `BinlogText.ParseDecimal` | src/server/binlog/binlog_pack.c:442-444 | a printed number, negative ones included, is read back up to its end |
| `BinlogText.NumberReads` | src/server/binlog/binlog_pack.c:401-491 | an integer field is read back and leaves the rest of the record |
| `BinlogText.TextReads` | src/server/binlog/binlog_pack.c:195-225 | a string field is read back if and only if escaping does not change the number of digits of its length |
| `BinlogText.LostLength` | src/server/binlog/binlog_pack.c:207-219 | when the number of digits changes, what is written is shorter than the value |
| `BinlogPack.ModeRoundTrip` | src/server/binlog/binlog_pack.c:303-306 | a mode survives being written as one number |
| `BinlogPack.LabelRoundTrip` | src/server/binlog/binlog_pack.c:144-193 | operation labels and operations correspond |
| `BinlogPack.ParseRecord` | src/server/binlog/binlog_pack.c:779-824 | the parsing loop agrees with field-by-field parsing of the whole text |
| `BinlogPack.ParseEncoded` | src/server/binlog/binlog_pack.c:799-824 | parsing encoded fields sets exactly those fields in order |
| `BinlogPack.FieldsFold` | src/server/binlog/binlog_pack.c:505-695 | setting all packed fields of a record gives what the log keeps of it |
| `BinlogPack.FrameChecks` | src/server/binlog/binlog_pack.c:837-900 | the frame of a packed record is accepted, whatever follows, if and only if the record reaches the least size |
| `BinlogPack.PackUnpack` | src/server/binlog/binlog_pack.c:231-399 | unpacking a packed record, whatever follows, consumes exactly its bytes and gives what the log keeps of it; a record below the least size is refused |
| `BinlogRoundTrip.RestoredExactly` | src/server/binlog/binlog_pack.c:231-399 | every field that options and operation select is restored if and only if the birth time, when selected, equals the access time |
| `BinlogRoundTrip.PackExact` | src/server/binlog/binlog_pack.c:231-399 | a record is packed if and only if a selected path has a directory or no name and the size fits four digits |
| `BinlogRoundTrip.UnpackAccepts` | src/server/binlog/binlog_pack.c:697-777 | a packed record of the least size is accepted if and only if it has a version, an inode, an operation and a time and, as a rename, both directories and names |
| `BinlogRoundTrip.BirthTimeLost` | src/server/binlog/binlog_pack.c:308-312 | a record with birth time 1 and access time 2 comes back with birth time 2 |
| `BinlogRoundTrip.ShortBytes` | src/server/binlog/binlog_pack.c:231-399 | the very bytes of a packed record: size, start tag, field names and values in their order, end tag |
| `BinlogRoundTrip.ShortRecordRefused` | src/server/binlog/binlog_pack.c:826-900 | a record that is packed and refused when it is unpacked |
| `BinlogScan.DetectForward` | src/server/binlog/binlog_pack.c:992-1035 | on any text the forward scan finds the first record start, or reports that there is none |
| `BinlogScan.DetectReverse` | src/server/binlog/binlog_pack.c:1037-1085 | on any text the backward scan finds the last record start, or reports that there is none |
| `BinlogScan.StartTagged` | src/server/binlog/binlog_pack.c:953-990 | a record start has its tag behind four characters that are no tag, and a letter behind the tag |
| `BinlogSlices.LineTag` | src/server/binlog/binlog_pack.c:231-399 | in a record the tag character occurs only in its start tag and a line end only at its end |
| `BinlogSlices.StartsOfSlice` | src/server/binlog/binlog_pack.c:953-990 | for all byte positions a and b of a file the record starts of the slice between them are exactly those of the records that lie wholly inside |
| `BinlogSlices.AcceptedExactly` | src/server/binlog/binlog_pack.c:837-900 | from any byte of a file on the record check accepts if and only if a record starts there and is whole |
| `BinlogSlices.DetectAnywhere` | src/server/binlog/binlog_pack.c:931-951 | the record check at any byte gives end and version of the record that starts there, asks for more bytes when it is cut, and fails elsewhere |
| `BinlogSlices.ScanForward` | src/server/binlog/binlog_pack.c:992-1035 | the forward scan of any slice of a file gives start, end and version of the first record wholly inside, and fails if and only if there is none |
| `BinlogSlices.ScanReverse` | src/server/binlog/binlog_pack.c:1037-1085 | the backward scan of any slice of a file gives start, end and version of the last record wholly inside, and fails if and only if there is none |
| `BinlogSlices.PackedIsLine` | src/server/binlog/binlog_pack.c:231-399 | every packed record of the least size, also one whose string lengths are lost, is such a line |
| `BinlogSlices.PackedVersion` | src/server/binlog/binlog_pack.c:779-797 | the version the scans read from a packed record is its data version |
| `BinlogReader.FirstRecordVersion` | src/server/binlog/binlog_reader.c:569-628 | reading a file piece by piece gives the version of its first record if and only if it has one of at most 9999 bytes |
| `BinlogReader.LastRecordVersion` | src/server/binlog/binlog_reader.c:630-685 | scanning the end of a file gives the version of its last record if and only if it has one of at most 9999 bytes |
| `BinlogReader.Reader.ReadToBuffer` | src/server/binlog/binlog_reader.c:171-192 | the bytes from the position on, from the next file at the end of one |
| `BinlogReader.Reader.IntegralRead` | src/server/binlog/binlog_reader.c:194-266 | for every buffer size a read returns the bytes of the next whole records that fit, across files, with first and last version, and stops behind them; it fails if and only if the next record does not fit, and then the position stays inside that record and further reads fail |
| `BinlogReader.Reader.KeepWhole` | src/server/binlog/binlog_reader.c:205-263 | of the bytes read, those of whole records are kept and the rest is given back; bytes that start with no whole record are not given back |
| `BinlogReader.Reader.FindVersion` | src/server/binlog/binlog_reader.c:316-394 | the buffered scan of the bytes ends exactly between the records up to the version and those above it, if and only if the records on the way fit the buffer |
| `BinlogReader.Reader.Search` | src/server/binlog/binlog_reader.c:396-457 | the file search terminates, and succeeds if and only if some file covers the wanted version, the first and last records of the files on the way are at most 9999 bytes and the records before it fit the buffer |
| `BinlogReader.Reader.LookAround` | src/server/binlog/binlog_reader.c:459-515 | the scan of the 10000 bytes from the hint on stops behind the wanted version if and only if these bytes hold the whole record of that version |
| `BinlogReader.Reader.DetectOpen` | src/server/binlog/binlog_reader.c:459-531 | a hit near the hint gives the same position as the search, and one of the two succeeds under an exact condition |
| `BinlogReader.Reader.Open` | src/server/binlog/binlog_reader.c:533-557 | for any hint, exactly when opening at a version succeeds, and that the position is then right behind that version |
| `BinlogHints.RightHint` | src/server/binlog/binlog_reader.c:548-556 | a hint right behind the record of the wanted version finds it without a search if and only if the record is at most 2499 bytes long behind offset 2499, 1249 bytes behind offset 1249, and never before |
| `BinlogHints.HintBehind` | src/server/binlog/binlog_reader.c:471-486 | a hint to the file behind the last stands for the start of the last; a later one leads nowhere |
| `BinlogReader.Reader.ReadOn` | src/server/binlog/binlog_reader.c:194-266 | repeated reads return the bytes of all records from the position on, in order, up to the end or to the first record that does not fit |
| `BinlogReader.Reader.ReadAll` | src/server/binlog/binlog_reader.c:194-266 | reads after opening at a version return exactly the bytes of the records above it, in order, up to the first that does not fit |
| `BinlogReader.NoneCovers` | src/server/binlog/binlog_reader.c:425-452 | a version between two neighbouring files, or before or behind all of them, is in no file |
| `ReplayMt.FilterIncreases` | src/server/binlog/binlog_replay.c:184-199 | what is dispatched is strictly increasing in version |
| `ReplayMt.FilterExact` | src/server/binlog/binlog_replay.c:184-199 | a record is dispatched if and only if its version is above the starting one and above all before it |
| `ReplayMt.FilterResumes` | src/server/binlog/binlog_replay.c:184-199 | of a log in version order exactly the part above the starting version is dispatched |
| `ReplayMt.SequentialReplay.DealBuffer` | src/server/binlog/binlog_replay.c:138-238 | batch by batch the sequential replay dispatches the filtered records in order and counts the others as skipped |
| `ReplayMt.SlotIsFree` | src/server/binlog/binlog_replay_mt.c:76-124 | a record is parsed into a slot inside its array that no owed or parsed record is in |
| `ReplayMt.StepKeepsInv` | src/server/binlog/binlog_replay_mt.c:322-445 | no step of a parse thread, a data thread or the feeding thread breaks the bookkeeping of the two arrays or the order |
| `ReplayMt.SameAsSequential` | src/server/binlog/binlog_replay_mt.c:322-445 | in every interleaving, what was dispatched is what the sequential replay dispatches for a prefix of the log, and for all of it between batches |
| `ReplayProgress.FedIsAccepted` | src/server/binlog/binlog_replay_mt.c:322-445 | the replay takes in exactly the buffers it was fed when ready, in order |
| `ReplayProgress.ReplayFinishes` | src/server/binlog/binlog_replay_mt.c:239-445 | in every state of every interleaving some thread can go on without new input unless all is done, every such step leaves less to do, and when all is done what was dispatched is what the sequential replay dispatches for all that was fed |
| `ReplayMt.NothingReused` | src/server/binlog/binlog_replay_mt.c:239-270 | in every interleaving, slots stay within the array and neither a slot nor a read buffer is reused while a completion is owed |
| `Flock.OverlapMeansCommonByte` | src/server/flock.c:152-161 | the overlap test means that some byte lies in both ranges, length 0 reaching to the end of the file |
| `Flock.PlaceSorted` | src/server/flock.c:94-128 | insertion with its early break keeps the region list sorted and free of duplicates |
| `Flock.VerdictFacts` | src/server/flock.c:200-235 | what the two-level conflict check answers, in terms of held and waited-for locks |
| `Flock.GrantedExactly` | src/server/flock.c:200-235 | a request is granted if and only if no overlapping region conflicts or has waiters and, for a shared lock only, nobody with an overlapping range waits globally |
| `FlockOutcomes.ApplyOutcome` | src/server/flock.c:237-271 | for every request on a consistent table: it is granted if and only if nothing is in its way; else it is refused when it does not want to wait, a deadlock when it would wait for its own connection, and otherwise joins the end of one queue, region or global; who is in its way is determined, and no other list changes |
| `FlockOutcomes.ApplyCounts` | src/server/flock.c:94-128 | a region counts every request for its range, also a refused one |
| `Flock.ApplyKeepsInv` | src/server/flock.c:237-271 | a request, whatever its outcome, keeps the lock table's invariant |
| `Flock.ReleaseKeepsInv` | src/server/flock.c:316-337 | a release or cancel keeps the invariant |
| `FlockOutcomes.ReleaseHeldOutcome` | src/server/flock.c:316-337 | giving up a held lock removes it, then the first so many of its queue and of the global queue get their locks in order, and no other list changes |
| `FlockOutcomes.CancelOutcome` | src/server/flock.c:316-337 | giving up a waiting request removes it from its queue and changes nothing else |
| `FlockOutcomes.ReleaseCounts` | src/server/flock.c:316-337 | a release or cancel is counted down once if there was anything to give up |
| `Flock.WakeRegionKeeps` | src/server/flock.c:289-314 | a region's wake-up loop keeps exclusion and ends with an empty queue or a blocked head |
| `Flock.WakeGlobalKeeps` | src/server/flock.c:289-314 | the global wake-up loop keeps exclusion and ends with an empty queue or a blocked head |
| `Flock.LocksExclude` | src/server/flock.c:237-337 | in every reachable state two held locks on overlapping ranges are both shared |
| `Flock.CountersMatch` | src/server/flock.c:130-139 | in every reachable state a region's counters describe its held list |
| `Flock.NoStrandedWaiter` | src/server/flock.c:163-337 | in every reachable state a region with waiters holds a lock of its own, two overlapping regions never both have waiters, and whoever waits waits for a held lock |
| `FlockCancel.StepHeadsExact` | src/server/flock.c:289-337 | from a state in which every queue head is blocked, a step keeps it so if and only if it is no cancel of a head, or held locks and remaining waiters hold up the next in line; region queues, sole waiters and the global queue alike |
| `FlockCancel.NoLostWakeUp` | src/server/flock.c:289-337 | all through a run every queue head is blocked by a lock or waiter that is there, if and only if no cancel in it passes over a request that nothing holds up |
| `FlockCancel.AsleepInRegion` | src/server/flock.c:316-337 | a run after which the next reader of a range sleeps on though only a reader holds it |
| `FlockCancel.AsleepBesideRegion` | src/server/flock.c:316-337 | a run in which the only waiter of a range gives up and a reader of another range sleeps on |
| `FlockCancel.AsleepGlobally` | src/server/flock.c:316-337 | a run in which the head of the global queue gives up and the next sleeps on |
| `Flock.FLockEntry.GetRegion` | src/server/flock.c:94-128 | the in-place region lookup or insertion agrees with its specification |
| `Flock.FLockEntry.GetConflictByRegion` | src/server/flock.c:163-198 | the scan with its early exit finds what a full scan finds |
| `Flock.FLockEntry.GetConflictFlockTask` | src/server/flock.c:200-235 | the two-level conflict check agrees with its specification |
| `Flock.FLockEntry.Apply` | src/server/flock.c:237-271 | the in-place request agrees with its specification and keeps the invariant |
| `Flock.FLockEntry.AwakeRegion` | src/server/flock.c:289-314 | the in-place region wake-up agrees with its specification |
| `Flock.FLockEntry.AwakeGlobal` | src/server/flock.c:289-314 | the in-place global wake-up agrees with its specification |
| `Flock.FLockEntry.Release` | src/server/flock.c:316-337 | the in-place release or cancel agrees with its specification and keeps the invariant |
| `Election.StepKeepsInv` | src/server/cluster_relationship.c:383-637 | every delivered call, in any interleaving of rounds, keeps what is true of each pair of candidates |
| `Election.AtMostOneMaster` | src/server/cluster_relationship.c:383-637 | in every reachable state at most one server considers itself master |
| `Election.UncontestedRoundWins` | src/server/cluster_relationship.c:564-761 | a round nobody interferes with and no server obstructs ends with every server following the candidate and no promise left |
| `ElectionRecovery.Recovery` | src/server/cluster_relationship.c:383-637 | whatever promises and masters broken-off rounds left, a candidate that goes on alone wins with one round more than there are such obstacles and not before; there are fewer than two for each server |
| `ElectionRecovery.CallOutcome` | src/server/cluster_relationship.c:383-541 | in any cluster state a call makes another master step down, frees a promise to another, leaves a promise, or makes the promised candidate master and ends the promise; the round goes on exactly in the last two cases, and nothing else changes |
| `ElectionRecovery.CallAnswers` | src/server/cluster_handler.c:299-331 | exactly when a call is answered with agreement, busy or exists |
| `Election.CmpIsTotalOrder` | src/server/cluster_relationship.c:224-248 | the comparison of server status is a total order |
| `Election.GetMaster` | src/server/cluster_relationship.c:279-347 | the candidate is the last of the sorted replies: none has a higher data version, among equals a master wins, then the higher status, then the higher server id |
| `Election.SameRepliesSameCandidate` | src/server/cluster_relationship.c:279-347 | servers with the same replies in any order name the same candidate |
| `Election.ClusterServer.PreSetMaster` | src/server/cluster_relationship.c:383-400 | the in-place pre-set agrees with the protocol step, which gives a promise, confirms it, or drops it on a clash |
| `Election.ClusterServer.UnsetMaster` | src/server/cluster_relationship.c:402-414 | the server follows no master afterwards and the master flags show none |
| `Election.ClusterServer.SetMaster` | src/server/cluster_relationship.c:434-516 | the master flags of all servers follow the new master |
| `Election.ClusterServer.CommitMaster` | src/server/cluster_relationship.c:518-541 | the in-place commit agrees with the protocol step: only the promised candidate becomes master, and the promise ends |
| `Election.ClusterServer.DealNextMaster` | src/server/cluster_handler.c:299-331 | the handler answers as the protocol step does, and refuses an unknown server |
| `BinlogProducer.DrainKeeps` | src/server/binlog/binlog_producer.c:281-365 | draining pushes consecutive buffers and loses none |
| `BinlogProducer.DealKeeps` | src/server/binlog/binlog_producer.c:281-365 | one buffer dealt with: the output stays a run of consecutive versions and the buffer is pushed, parked or requeued |
| `BinlogProgress.DealOutcome` | src/server/binlog/binlog_producer.c:281-365 | what becomes of a buffer by its versions: dropped when past, pushed when due, back to the queue when too far ahead, else parked in its slot, and what stays as it was |
| `BinlogProgress.DueIsPushed` | src/server/binlog/binlog_producer.c:303-325 | a due buffer is pushed at once and stays out of the queue |
| `BinlogProgress.RepushInOrder` | src/server/binlog/binlog_producer.c:236-270 | going back to a queue in version order keeps that order |
| `BinlogProducer.OrderedGapFreeOutput` | src/server/binlog/binlog_producer.c:236-398 | for every arrival order and interleaving the output is a run of consecutive versions and every buffer received is exactly one of pushed, parked or queued |
| `BinlogProducer.ProducerComplete` | src/server/binlog/binlog_producer.c:281-365 | with buffers that do not run over the last slot the ring never holds the due version |
| `BinlogProgress.NextIsFirstGap` | src/server/binlog/binlog_producer.c:281-398 | with nothing queued or detached, the next version is the first that no buffer brought, if and only if no due buffer is stuck in the ring |
| `BinlogProgress.EverythingDueIsPushed` | src/server/binlog/binlog_producer.c:367-398 | after any run of buffers that do not run over the last slot, once nothing more arrives, taking and dealing with the queue one time more than there are buffers pushes everything up to the first version that no buffer brought |
| `BinlogProducer.RingMeaning` | src/server/binlog/binlog_producer.c:281-365 | start equals end exactly when nothing is parked, and count is the number parked |
| `BinlogProducer.ParkExact` | src/server/binlog/binlog_producer.c:346-364 | parking keeps the ring's promise if and only if the range is not misjudged |
| `BinlogProducer.MisjudgedBreaksRing` | src/server/binlog/binlog_producer.c:346-364 | a range that wraps past the last slot is left outside the window |
| `BinlogProducer.StalledForGood` | src/server/binlog/binlog_producer.c:281-398 | once a due buffer is left in the ring, no further events of any kind make the producer push anything |
| `BinlogProducer.WrapStalls` | src/server/binlog/binlog_producer.c:281-365 | a concrete run, five buffers for a producer that starts at 4090, that ends in such a stall |
| `BinlogProducer.Producer.RepushToQueue` | src/server/binlog/binlog_producer.c:236-270 | the list insertion agrees with its specification |
| `BinlogProducer.Producer.DrainRing` | src/server/binlog/binlog_producer.c:281-365 | the draining loop agrees with its specification |
| `BinlogProducer.Producer.DealWith` | src/server/binlog/binlog_producer.c:281-365 | dealing with a buffer in place agrees with its specification |
| `NsSubscribe.StepKeepsInv` | src/server/ns_subscribe.c:152-214 | no atomic step of an updater, a notifier or the sender breaks the flags and queues |
| `NsSubscribe.NoLostUpdate` | src/server/ns_subscribe.c:152-214 | in every interleaving a namespace whose used bytes differ from the value last sent is queued, in transit or still to be notified |
| `NsSubscribe.QuiescentIsCurrent` | src/server/service_handler.c:398-482 | once nothing is left to notify, move or send, the subscriber has every current value |
| `NsSubscribe.NoDuplicateEntries` | src/server/ns_subscribe.c:152-214 | no namespace is ever twice in the queues |
| `NsSubscribe.Subscriber.NotifyChange` | src/server/ns_subscribe.c:152-170 | a notification is the two steps of an updater in the machine and keeps its invariant |
| `NsSubscribe.Subscriber.HoldingToSendingQueue` | src/server/ns_subscribe.c:172-214 | the move between the queues is a run of the machine by the subscriber's own steps and takes exactly the entries not yet being sent, in order |
| `NsSubscribe.Subscriber.SendBatch` | src/server/service_handler.c:436-470 | sending is a run of the machine that sends current values from the head of the queue, puts the rest back and sends nothing else |
| `NsSubscribe.Subscriber.FetchUpdates` | src/server/service_handler.c:398-482 | a fetch is a run of the machine by the subscriber's own steps, so no update is lost: it refills the sending queue from the holding queue only when empty, sends current values from its head, says whether more is left, and changes nothing else |

## Left out

- The client, its tools and the network protocol: marshalling around unseen libraries.
- Storage engine paths, change notification messages and loading of dentries on demand.
- Several namespaces and several data threads: the model is one namespace in one thread; records of different namespaces do not meet in a tree.
- DataThread: the dispatch is modelled on values over the specification of the tree, not as a class; a numbering shared by several threads and the tolerated error codes of the loose mode are not modelled.
- Record: integers are unbounded; 32-bit and 64-bit wrap-around and saturation in parsing are not modelled, and a negative string length is answered with an error where the source does pointer arithmetic.
- BinlogPack.PackUnpack: does not model the capacity of the output buffer, and says nothing about what a record with a lost length is parsed as.
- BinlogText.TextReads: states the exact condition for one field; a whole record with such a field is covered only in the direction that all fields fit.
- BinlogRoundTrip.RestoredExactly: is about records that reach the least size and whose strings keep their lengths; the others are refused (BinlogPack.PackUnpack) or not read back field by field (BinlogText.TextReads).
- DentryTree.Tree.MoveDentry: does not model a failed replacement in an overwriting move, because the entry to replace is in the skip list, whose code is not part of this model; if it failed, the reference dropped just before would not be restored (src/server/dentry.c:1036-1056).
- BinlogReader.Reader: every file ends with a whole record, as after a clean stop; reading a file that is being written, and errors of the file system, are left out.
- ReplayMt.SameAsSequential: a failed record stops the server; runs after a failure are not modelled, and the counters of one array are awaited in one step.
- Flock: offsets and lengths do not wrap around, and system locks are left out.
- Election.AtMostOneMaster: every call is delivered and answered; a round may start and a follower may adopt a reported master at any time, which only adds behaviours. Partitions are left out, as the source expects split brain there.
- BinlogProducer: the queue is a sequence, its tail pointer is not modelled.
- NsSubscribe: registering and unregistering a subscriber and its free list.
- InodeIndex.InodeTable: a chain is a sequence, not linked nodes, and the lock of a bucket is not modelled.
- Batch size requests and their numbering, the scan for the last record end, consistency checks of slave binlogs, delayed freeing and reference counts.
