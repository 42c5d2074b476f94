# AVBox, modelled and proved

AVBox reads untrusted retro-media and container bytes with hand-written parsers, recurses into what it finds under one
global budget, and runs the work as persisted jobs behind a queue. This project models the parts of it where
correctness spans several functions or a whole run, and proves what they promise.

Each loop of the program is a method (or a class method where the program updates shared fields), proved equal to a
specification function; the lemmas are about those functions. What a parser accepts and returns is stated twice more
without its own functions: by a writer that it reads back, and by a description of the input's bytes (fields at their
offsets, words that add up, half-bytes of a table) that holds exactly when the parser succeeds with the described result.

| files | models |
|---|---|
| `Bytes` | byte strings and fixed-width reads |
| `Ovba`, `OvbaPacker`, `OvbaGrammar` | the MS-OVBA decompressor, a packer that it undoes, and the byte strings it accepts |
| `Fat`, `FatExtractor`, `FatValidator`, `FatAgreement`, `FatOwnership` | FAT: the extractor that raises, the validator that collects findings, and what they owe each other |
| `FatDisk`, `FatTree`, `FatVerdict`, `FatFindings` | the bytes of a FAT image; the tree of files the extractor returns; when an image is VALID; what a chain reports |
| `Adf`, `AdfExtractor`, `AdfValidator`, `AdfAgreement` | ADF: the extractor, the validator, and what they owe each other |
| `AdfDisk`, `AdfTree`, `AdfVerdict` | the bytes of an ADF disk; the tree of files the extractor returns; when a disk that holds a tree is VALID |
| `Containers`, `ContainerRun`, `ContainerFit`, `ContainerDepth`, `ContainerEngine`, `ContainerTheorems`, `ContainerRefusals`, `NestedDisk` | the recursive extraction engine: its data and result lists, its shared state, the full expansion and when it fits the budgets, what the recursion bound cuts off, the engine's methods, what a finished run says, which members it gives up and which it refuses, and runs on a real nested disk |
| `Jobs`, `Rab`, `RabInvariant`, `RabHolders`, `RabSteps`, `RabTheorems`, `RabVerdicts`, `RabLateRecord`, `RabService` | job states and tables; the RAB job protocol as a step relation over submitters, workers, shutdown, crash and restart; what a scan's verdicts make of its job; the service's own methods, whose effects the steps compose to |
| `Hunk`, `HunkPrinter`, `HunkGrammar` | the Amiga HUNK parser, a writer it reads back, and the files it accepts |
| `Partitions`, `PartitionTables`, `PartitionWriter`, `PartitionDisk`, `BoundedRange` | partition tables, overlap marks, the table writers of the tests, what tables say byte by byte, the bounded reader |
| `Crc16`, `CrcPolynomial`, `Lha`, `LhaDisk` | CRC-16 and what it is as a polynomial; the LHA validator, the archive writer of the tests, and archives member by member |
| `BootChecksum`, `Fixtures`, `AdfFixture`, `Writing`, `Paths` | the boot checksum; the FAT-entry, directory-row, block-checksum and ADF-file writers of the tests; words and paths |

Where the program is not what one would expect:

- The VBA token split takes one bit more than [MS-OVBA] section 2.4.1.3.19.1 exactly when the position is a power of two
  of at least 16 (`Ovba.BitCountAgainstSpecification`). The model keeps the program's formula.
- A partition's length is counted only after its own recursion has returned, so nested tables pass the total partition
  cap: on a 1536-byte MBR disk whose partition is an MBR disk, every run that the deadline spares ends COMPLETE, without
  an event, with 1536 bytes counted against a cap of 1024 (`NestedDisk.NestedRun`). Every run keeps the cap if nothing in
  a partition, its own bytes included, is opened as a partition table; a COMPLETE run keeps it exactly when the partitions
  of the full expansion fit it together (both in `ContainerEngine.Engine.Process`).
- A submitter that has passed the queue check can find the queue full once the shutdown has sent its sentinels. Its job is
  recorded but not queued, and a repeated request is then accepted on the record while the job stays QUEUED
  (`RabLateRecord.AcceptedJobCanStayQueued`). `RabTheorems.QuietMeansTerminal` gives the exact condition and
  `RabTheorems.PutSucceeds` the phases in which it cannot happen.
- With `max_recursion_depth` 0 the engine returns without an event, so a run ends COMPLETE with nothing extracted
  (`NestedDisk.ShallowRun`), whatever the source holds (`NestedDisk.ShallowMisses`). Below a positive bound a recognized
  object at the bound leaves an event, but document payloads there are not looked at. `ContainerDepth.CompleteRunIsWhole`
  says exactly when a COMPLETE run lists what a larger bound would.
- An upload whose queueing failed stays as long as the process lives: the upload files are those of live jobs and of failed
  queueings, and only those of live jobs exactly when no queueing failed (`RabTheorems.UploadsAreLive`).

In the RAB model `history`, `place`, `accepted`, `crashed` and `failedPuts` are a log of the run that no step reads; so
are `claims`, `files`, `widest` and `alike` in the FAT validator, `visits` in the ADF validator, and `nodes` and `passed` in the
engine. `crashed` covers every end of the process, including a restart after an orderly shutdown.

## Model

| member | source | states |
|---|---|---|
| `Ovba.DecompressVba` | src/avbox/analyzers/document.py:333-386 | the decoder's loops compute the container decoding on every byte string; every index is in bounds, so the `except` branch is unreachable |
| `Ovba.DecompressChunk` | src/avbox/analyzers/document.py:341-383 | one chunk: a compressed one is consumed up to exactly `chunk_end`, group by group |
| `Ovba.DecompressGroup` | src/avbox/analyzers/document.py:356-381 | the eight-item loop behind a flag byte |
| `Ovba.DecompressItem` | src/avbox/analyzers/document.py:361-381 | one literal or copy token; the shift count is never negative |
| `Ovba.AppendRun` | src/avbox/analyzers/document.py:373-376 | the byte-by-byte copy, stopping as soon as the output passes `maximum` |
| `OvbaPacker.RoundTrip` | src/avbox/analyzers/document.py:333-386 | decoding a container packed from any raw chunks and any literal and copy tokens gives the concatenated expansions exactly when they fit `maximum`, and nothing otherwise |
| `OvbaPacker.ExpandConcatenates` | src/avbox/analyzers/document.py:340-383 | a container's meaning is the concatenation of its chunks' own expansions |
| `OvbaGrammar.DecodeIff` | src/avbox/analyzers/document.py:333-386 | decoding gives `out` if and only if the bytes are a 1 and chunks (a header with signature 011, its size and its flag; raw bytes, or groups of a flag byte and up to eight items that stay in the chunk) whose concatenated expansions are `out`, of at most `maximum` bytes |
| `OvbaGrammar.ItemFound` | src/avbox/analyzers/document.py:361-381 | an item that is decoded is the literal or the two-byte word of a token that reaches back no further than its chunk |
| `Ovba.CopyIsPeriodic` | src/avbox/analyzers/document.py:373-376 | an overlapping copy is a periodic extension of what is already out |
| `Ovba.TokensStayInChunk` | src/avbox/analyzers/document.py:366-372 | tokens never reach back before their chunk: earlier output does not change their effect |
| `Ovba.LengthBitsBounds` | src/avbox/analyzers/document.py:366-370 | below position 65536 the split leaves 0 to 12 length bits, and 3 at most once 4096 bytes are out |
| `Ovba.CopyKeepsBudget` | src/avbox/analyzers/document.py:357-376 | the position budget that keeps every position in a chunk below 65536 survives each copy token |
| `OvbaPacker.CopyWordFits` | src/avbox/analyzers/document.py:364-370 | every valid token packs into 16 bits and is recovered by the program's shift and mask |
| `Ovba.BitCountAgainstSpecification` | src/avbox/analyzers/document.py:367 | the program's bit count equals the published one unless the position is a power of two of at least 16, where it is one larger |
| `Fat.TablesInside` | src/avbox/analyzers/disk_images.py:50-76 | on an accepted parameter block both tables and the root area lie inside the image |
| `Fat.ClustersInside` | src/avbox/analyzers/disk_images.py:104-110 | on an accepted parameter block every in-range cluster lies inside the image |
| `FatExtractor.Chain` | src/avbox/analyzers/disk_images.py:112-139 | a chain that is read with a wanted size has exactly that size, on any table, cyclic ones included |
| `FatExtractor.ReadChain` | src/avbox/analyzers/disk_images.py:112-139 | the chain loop computes `Chain` and ends on every table |
| `FatExtractor.WalkFrom` | src/avbox/analyzers/disk_images.py:141-175 | the directory walk only adds entries and visited directories, and ends on cyclic media |
| `FatExtractor.Walker.Walk` | src/avbox/analyzers/disk_images.py:141-175 | the walk that appends to the shared lists reaches the state `WalkFrom` gives, or its error |
| `FatExtractor.ParseFat` | src/avbox/analyzers/disk_images.py:45-193 | total on arbitrary bytes: nothing, an error, or the specified entries |
| `FatValidator.Validator.Follow` | src/avbox/analyzers/structural.py:373-401 | the chain loop's effect on owners, reachable clusters and findings, and the clusters whose bytes it collects |
| `FatValidator.Validator.Chain` | src/avbox/analyzers/structural.py:357-404 | the chain's bytes cut to the declared size, with a finding when they fall short |
| `FatValidator.Validator.Scan` | src/avbox/analyzers/structural.py:406-483 | the recursive directory scan reaches exactly the audit `ScanFrom` gives |
| `FatValidator.Validator.Root` | src/avbox/analyzers/structural.py:311-329 | the root directory: a chain on FAT32, the fixed area otherwise |
| `FatValidator.ValidateFat` | src/avbox/analyzers/structural.py:271-355 | the findings of the whole validation, orphan count included; they are empty exactly under the condition of `FatVerdict.ValidIff`, and the copies of the table are compared as `FatOwnership.CopiesReported` says |
| `FatAgreement.ExtractorReadsChain` | src/avbox/analyzers/disk_images.py:112-139 | the extractor reads a chain of the table whole, or its wanted prefix, or reports truncation |
| `FatAgreement.CleanChain` | src/avbox/analyzers/structural.py:357-404 | a chain followed without a finding is a chain of the table, long enough for the declared size |
| `FatAgreement.ChainsAgree` | src/avbox/analyzers/structural.py:357-404 | where the validator finds nothing wrong with a chain the extractor returns the very bytes it returned |
| `FatAgreement.ScanAgrees` | src/avbox/analyzers/structural.py:406-483 | from equal visited sets, a finding-free scan during which both sides passed over the same names and the extractor's walk go through the same rows, recursively |
| `FatAgreement.ValidImageExtracts` | src/avbox/analyzers/structural.py:271-483 | an image without findings, on whose reached rows both sides pass over the same names and whose directories fit the row limit, never makes the extractor raise, and it returns exactly the files the validator walked, in order, each with its declared size and the bytes of its cluster chain |
| `FatDisk.GeometryIff` | src/avbox/analyzers/disk_images.py:48-72 | both sides accept a parameter block exactly when its fields, at their offsets, describe a volume that fits in the image, and they compute the root directory's sectors (rounded up) and the data clusters (rounded down) of that volume |
| `FatDisk.EntryIff` | src/avbox/analyzers/disk_images.py:78-97 | a table entry is the number of its three, four or seven half-bytes at a distance of three, four or eight, least significant first, if the table reaches that far; 4085 and 65525 clusters decide which |
| `FatDisk.EndsIff` | src/avbox/analyzers/disk_images.py:98-102 | the eight highest values of that width end a chain |
| `FatDisk.RowIff` | src/avbox/analyzers/disk_images.py:141-175 | a row's end mark, the rows passed over, the directory bit, the first cluster's two halves and the size, on the row's bytes |
| `FatTree.ReadIff` | src/avbox/analyzers/disk_images.py:112-139 | a chain is read with this content if and only if the table links that many clusters from the start, inside the image and without repetition: for a directory up to an end mark, for a file as many as its size needs; below start 2 nothing is read, and only an empty file is |
| `FatTree.RowsRead` | src/avbox/analyzers/disk_images.py:141-175 | a directory's rows, with what they stand for, are walked as they lie there, each directory entered once |
| `FatTree.RowsFound` | src/avbox/analyzers/disk_images.py:141-175 | a directory walked to its end has such rows |
| `FatTree.ParseIffTree` | src/avbox/analyzers/disk_images.py:45-193 | extraction succeeds with these entries if and only if the image holds a recognized volume with a tree of rows and chains whose files they are: in walking order, each with its content, its slash-joined path and its number |
| `FatTree.NothingIff` | src/avbox/analyzers/disk_images.py:46-73 | nothing is returned, and no error raised, exactly when the image does not begin with a volume that is recognized |
| `FatVerdict.FollowIff` | src/avbox/analyzers/structural.py:373-401 | following a chain of the table is clean exactly when none of its clusters is recorded for another owner and it is within the node limit |
| `FatVerdict.ScanReads` | src/avbox/analyzers/structural.py:406-483 | rows whose chains are whole, long enough and compatible with each other are scanned without a finding |
| `FatVerdict.RowsFound` | src/avbox/analyzers/structural.py:406-483 | a directory scanned without a finding has such rows |
| `FatVerdict.ValidIff` | src/avbox/analyzers/structural.py:271-355 | an image is VALID if and only if it begins with a volume that fits, its tables are equal, and it holds a tree whose chains are whole, within the limit and long enough, whose entered directories differ, where chains of different paths share no cluster, and no other cluster (2 excepted on FAT32) is in use |
| `FatFindings.ChainReport` | src/avbox/analyzers/structural.py:373-404 | a chain reports the one thing that stopped it, by the table's entries: a cluster met before, a start beyond the volume, a cluster of another path, an entry that is neither link nor end, the limit; and then whether it is too short |
| `FatOwnership.FollowSound` | src/avbox/analyzers/structural.py:373-401 | following a chain keeps the ownership invariant, with the clusters claimed so far |
| `FatOwnership.ScanSound` | src/avbox/analyzers/structural.py:406-483 | so does a whole directory scan |
| `FatOwnership.CopiesReported` | src/avbox/analyzers/structural.py:300-307 | on a coherent image the mismatch is among the findings if and only if there are two tables and some byte of the second differs from that of the first |
| `FatOwnership.OwnershipPartition` | src/avbox/analyzers/structural.py:308-354 | on a VALID image chains of different owner paths are disjoint, every reached cluster is in range with a live entry, every allocated cluster (2 excepted on FAT32) is reached, the table has an entry for every cluster, and a second table equals the first byte for byte |
| `Adf.Payload` | src/avbox/analyzers/disk_images.py:247-255 | a data block's payload has the size the validator counts |
| `AdfExtractor.FileData` | src/avbox/analyzers/disk_images.py:236-260 | a file that is read has exactly its declared size |
| `AdfExtractor.ReadFile` | src/avbox/analyzers/disk_images.py:236-260 | the data-pointer loop computes `FileData` |
| `AdfExtractor.ReadHeader` | src/avbox/analyzers/disk_images.py:271-284 | a header passes exactly when it is a checksummed header with a readable safe name and one of the two kinds |
| `AdfExtractor.Walker.Walk` | src/avbox/analyzers/disk_images.py:262-285 | the bucket and chain loops with their recursion reach the specified state or error, and end on cyclic media |
| `AdfExtractor.ParseAdf` | src/avbox/analyzers/disk_images.py:204-302 | total on arbitrary bytes: nothing, an error, or the specified entries, which `AdfTree.ParseIffTree` describes on the disk's bytes |
| `AdfValidator.Walker.TakeFile` | src/avbox/analyzers/structural.py:238-266 | the validator's data-pointer loop: the blocks taken, in order |
| `AdfValidator.Walker.Walk` | src/avbox/analyzers/structural.py:219-269 | the reference walk reaches the specified audit or error |
| `AdfValidator.ValidateAdf` | src/avbox/analyzers/structural.py:145-207 | the verdict around the walk: root, boot block and bitmap checks included |
| `AdfAgreement.FileAgrees` | src/avbox/analyzers/structural.py:238-266 | where the validator takes a file's blocks to the end, the extractor reads their payloads at full size |
| `AdfAgreement.BucketsAgree` | src/avbox/analyzers/structural.py:219-269 | a directory's buckets: the extractor succeeds exactly when all headers visited below are ones it accepts |
| `AdfAgreement.ChainAgrees` | src/avbox/analyzers/structural.py:219-269 | the same along one hash chain |
| `AdfAgreement.ChainDisjoint` | src/avbox/analyzers/structural.py:219-269 | walking a hash chain never gives one block to two entries |
| `AdfAgreement.ExtractorRefinesWalk` | src/avbox/analyzers/disk_images.py:204-302 | with a valid root and a successful reference walk the extractor succeeds if and only if every visited header's kind and name and the volume name are ones it accepts; it then returns the visited files, in order, at full size; no header or data block belongs to two entries |
| `AdfDisk.PieceIff` | src/avbox/analyzers/disk_images.py:240-255 | a data block gives a file these bytes exactly when it lies there as an OFS block of that header (type, owner, length, sum) or, on FFS, as it is |
| `AdfDisk.FileReads` | src/avbox/analyzers/disk_images.py:236-260 | a file's pieces, in the order of its pointers from slot 71 down, are read up to its size |
| `AdfDisk.FileFound` | src/avbox/analyzers/disk_images.py:236-260 | what is read comes from such pieces: distinct pointers, and none left over |
| `AdfTree.ChainReads` | src/avbox/analyzers/disk_images.py:262-285 | a hash chain of any length, with the directories nested in it, is walked to exactly its files |
| `AdfTree.ChainFound` | src/avbox/analyzers/disk_images.py:262-285 | a hash chain that is walked to its end lies there as a chain of sealed headers |
| `AdfTree.ParseIffTree` | src/avbox/analyzers/disk_images.py:204-302 | extraction succeeds with these entries if and only if the disk holds a tree of sealed headers, given by their words and names at their offsets, no header used twice, whose files they are: in walking order, each with its content, its slash-joined path and its number |
| `AdfTree.NothingIff` | src/avbox/analyzers/disk_images.py:206-222 | nothing is returned, and no error raised, exactly on a wrong size, a wrong magic or a block 880 that is no root |
| `AdfVerdict.ChainWalked` | src/avbox/analyzers/structural.py:219-269 | along a hash chain the reference walk passes exactly on fresh blocks within the node limit, and has then seen just the chain's blocks |
| `AdfVerdict.ValidIff` | src/avbox/analyzers/structural.py:145-207 | a disk that holds a tree is VALID if and only if its boot block's words sum to a positive multiple of 2^32-1, its bitmap blocks are sealed, no header or data block of the tree is used twice, and the tree has no more headers than the limit |
| `ContainerEngine.Engine.constructor` | src/avbox/analyzers/containers.py:96-103 | a fresh usage record: empty lists and zero counters |
| `ContainerEngine.Engine.Process` | src/avbox/analyzers/containers.py:95-120 | the lists are a consistent preorder of the extraction tree within every budget; a job already lowered is not raised to COMPLETE; a COMPLETE run has no event, accounts for every member, lists the full expansion and has nothing recognized at the depth bound; before the deadline a run ends COMPLETE exactly when the expansion fits; the total partition cap is kept if no partition holds a table that is opened, and on a COMPLETE run exactly when the partitions of the expansion fit it |
| `ContainerEngine.Engine.ProcessObject` | src/avbox/analyzers/containers.py:122-175 | the deadline, the depth bound, document payloads and the kind's branch keep the invariant at every depth; past the deadline nothing but its event is noted; failing or partial document parsing rules out COMPLETE; before the deadline the call leaves a quiet run quiet exactly when what lies below fits |
| `ContainerEngine.Engine.ProcessContents` | src/avbox/analyzers/containers.py:174-287 | each failing kind changes nothing but its one event and its completeness value; a kind that cannot be opened raises; an unrecognized object changes nothing; a damaged table rules out COMPLETE |
| `ContainerEngine.Engine.ProcessCompressed` | src/avbox/analyzers/containers.py:264-287 | a compressed stream is one child, without the child-count test of the loops |
| `ContainerEngine.Engine.ProcessMembers` | src/avbox/analyzers/containers.py:181-216 | a listing longer than the per-object limit leaves its event, and at most that many entries are listed one level below the object, whatever is nested in them |
| `ContainerEngine.Engine.OfferMembers` | src/avbox/analyzers/containers.py:185-189 | the loop over the members up to the limit, left when no further child can start: the first members' expansion in order, quiet before the deadline exactly when they fit |
| `ContainerEngine.Engine.ProcessMember` | src/avbox/analyzers/containers.py:186-216 | by the member's own fields, in the order of its listing's checks (encryption, unsafe path, link, special file, declared size, the tool's own failure): the first that fails changes nothing but the discovery counter and leaves just its event; a directory row of a tool listing is only counted; so is any member, with an event, once the child count is used up |
| `ContainerEngine.Engine.ProcessPartitions` | src/avbox/analyzers/containers.py:311-347 | the partition loop keeps the invariant and the partition accounting, and stays quiet before the deadline exactly when each partition fits when its turn comes |
| `ContainerEngine.Engine.ProcessPartition` | src/avbox/analyzers/containers.py:312-330 | the child count, the partition cap and the total cap, in that order: each refusal changes nothing but the discovery counter and its one event, and says whether the loop goes on; a range outside the object raises |
| `ContainerEngine.Engine.ProcessSlice` | src/avbox/analyzers/containers.py:327-347 | the child is what the bounded reader yields, the object's slice, and its length is counted once its recursion is over; a range the reader refuses raises and changes nothing |
| `ContainerEngine.Engine.Child` | src/avbox/analyzers/containers.py:401-482 | one more child and everything below it extend the state, with at most one entry at the child's own level; a recognized child at the depth bound leaves an event; a partition with no table inside leaves the partition counter alone; before the deadline the call stays quiet exactly when the child fits |
| `ContainerEngine.Engine.AddChild` | src/avbox/analyzers/containers.py:416-469 | either one entry is appended to both lists with its file and its counters, or nothing changes but the one event that says why: the child count, or the deadline or budget its bytes exceed; before the deadline the former exactly when a child can start, its stream is read to the end and the byte budgets hold |
| `ContainerEngine.Engine.Materialize` | src/avbox/analyzers/containers.py:720-762 | a child is written whole within the size, total-byte and ratio budgets, or removed again with the event of the deadline or budget that stopped it; its exclusive creation never collides |
| `ContainerEngine.Engine.CanStartChild` | src/avbox/analyzers/containers.py:835-839 | false exactly at the global child cap, with an event |
| `ContainerEngine.Engine.Limit` | src/avbox/analyzers/containers.py:861-868 | an event is noted once |
| `Containers.PreorderConcat` | src/avbox/analyzers/containers.py:435-482 | two preorders below the same object, one after the other, are a preorder |
| `Containers.PreorderNode` | src/avbox/analyzers/containers.py:435-482 | a child followed by the preorder below it is a preorder one level up |
| `ContainerRun.NextFileIsFree` | src/avbox/analyzers/containers.py:417-419 | the live files being `child-0` to `child-(n-1)`, `child-n` is free |
| `ContainerRun.PartitionCounted` | src/avbox/analyzers/containers.py:346-347 | counting a returned partition keeps the counter below the extracted bytes, below one cap a level, and below the cap itself when the partition holds no opened table |
| `ContainerRun.TabledPartition` | src/avbox/analyzers/containers.py:334-347 | while a partition is open, and neither it nor anything below it is opened as a table, the counter does not move |
| `ContainerDepth.FitsAtBound` | src/avbox/analyzers/containers.py:470-473 | an expansion that fits has nothing recognized at the depth bound, however deep the nesting |
| `ContainerDepth.BoundLosesNothing` | src/avbox/analyzers/containers.py:136-137 | the expansion under the bound is that under a larger one if and only if no object at the bound, the source itself for bound 0, has anything to extract |
| `ContainerDepth.CompleteRunIsWhole` | src/avbox/analyzers/containers.py:470-482 | a COMPLETE run lists what every larger bound would if and only if the source is childless (bound 0), or no listed object at the bound carries document parts |
| `ContainerTheorems.ListsArePreorder` | src/avbox/analyzers/containers.py:435-469 | each entry of depth above 1 hangs below exactly one earlier entry, one level up, named by hash, with nothing shallower between; depth-1 entries name the root; `relationships` is the same sequence edge for edge |
| `ContainerTheorems.GlobalBudget` | src/avbox/analyzers/containers.py:720-762 | the child counter equals both list lengths and stays within its cap; the byte counter equals the sum of derived sizes and stays within its cap |
| `ContainerTheorems.CompoundExpansion` | src/avbox/analyzers/containers.py:747-752 | a child at depth d has at most ratio^d times the root's bytes, and at most the single-child cap |
| `ContainerTheorems.PartitionIsSlice` | src/avbox/analyzers/containers.py:331-347 | a partition child equals its parent's slice, byte for byte |
| `ContainerRefusals.ListedEntryIsClean` | src/avbox/analyzers/containers.py:186-216 | every listed entry of a ZIP, tar, disk or tool listing comes from a member of its parent with a safe path: of a ZIP neither encrypted nor a link, of a tar a regular file and no link, of a tool one it extracts and no directory; outside disk images with a declared size within the child cap |
| `ContainerRefusals.RefusalEvents` | src/avbox/analyzers/containers.py:186-216 | for each event, exactly which members leave it, by their fields |
| `ContainerRefusals.CompleteRunRefusesNothing` | src/avbox/analyzers/containers.py:186-216 | the listings opened in a COMPLETE run hold no member to refuse |
| `ContainerTheorems.FreshRun` | src/avbox/analyzers/containers.py:95-120 | a run of its own, before the deadline, ends COMPLETE if and only if the whole expansion fits, and then both lists are the expansion entry for entry and the partition counter is its partitions' bytes |
| `NestedDisk.DiskDecodes` | src/avbox/analyzers/partitions.py:81-156 | an MBR disk around any whole sectors, none of which starts like an RDB, is read as one undamaged partition holding just them |
| `NestedDisk.NestedExpands` | src/avbox/analyzers/containers.py:318-347 | on the MBR disk inside an MBR disk every budget check passes when it is made, and the partitions have 1536 bytes together |
| `NestedDisk.NestedRun` | src/avbox/analyzers/containers.py:311-347 | the engine on that disk, unless the deadline passes, ends COMPLETE without an event, with 1536 partition bytes counted against a cap of 1024 |
| `NestedDisk.ShallowRun` | src/avbox/analyzers/containers.py:133-137 | with a recursion bound of 0 every run on every source, unless the deadline passes, ends COMPLETE without an event and with empty lists |
| `NestedDisk.ShallowMisses` | src/avbox/analyzers/containers.py:136-137 | the nested disk is decoded as a partition table, and every larger bound would list something |
| `Jobs.ScanJob.Transition` | src/avbox/models/jobs.py:88-92 | moves along the table or changes nothing |
| `Jobs.JobService.Save` | src/avbox/application/jobs.py:36-41 | replaces the row by the holder's copy |
| `Jobs.JobService.Transition` | src/avbox/application/jobs.py:55-58 | moves the copy and saves it, or saves nothing |
| `Jobs.JobService.RabByIdempotency` | src/avbox/application/jobs.py:99-113 | the record for one client and key, if any |
| `Jobs.JobService.SaveRabJob` | src/avbox/application/jobs.py:72-97 | adds a record, refused exactly when the client and key have one |
| `Jobs.JobService.ReconcileInterrupted` | src/avbox/application/jobs.py:132-144 | fails every stale RAB job, leaves all other rows, and counts them |
| `Jobs.NoStateTwice` | src/avbox/models/jobs.py:31-39 | a path of the transition table visits no state twice |
| `Jobs.HistoriesAre` | src/avbox/models/jobs.py:31-39 | the paths of the table from CREATED are exactly these: a beginning of CREATED, STAGED, QUEUED, RUNNING, COMPLETE; one that leaves out COMPLETE, followed by FAILED; or STAGED, RUNNING or COMPLETE followed by QUARANTINED |
| `Jobs.ReconcileClears` | src/avbox/application/jobs.py:132-144 | reconciliation follows the table, leaves nothing stale, and is idempotent |
| `RabSteps.PutKeeps` | src/avbox/protocol/service.py:547 | queueing a recorded job keeps the protocol invariant |
| `RabSteps.PutFailsKeeps` | src/avbox/protocol/service.py:547-560 | so does its failure |
| `RabSteps.TakeKeeps` | src/avbox/protocol/service.py:750-754 | a worker takes a job, or its sentinel |
| `RabSteps.FinishKeeps` | src/avbox/application/scanning.py:218-233 | an execution ends FAILED if the scan raised, QUARANTINED if its verdict calls for it, and COMPLETE otherwise |
| `RabSteps.DrainTakeKeeps` | src/avbox/protocol/service.py:91-96 | the shutdown takes a job off the queue beside submitters and workers |
| `RabSteps.CrashKeeps` | src/avbox/protocol/service.py:61-85 | the process ends between any two steps |
| `RabSteps.ReconcileOneKeeps` | src/avbox/application/jobs.py:132-144 | one stale row is failed at restart |
| `RabTheorems.StepKeeps` | src/avbox/protocol/service.py:90-106 | every step of submitters, workers, shutdown, crash and restart keeps the invariant |
| `RabTheorems.RunKeeps` | src/avbox/protocol/service.py:474-560 | the invariant holds in every state of every run |
| `RabTheorems.NoRejection` | src/avbox/application/scanning.py:101-104 | a worker only ever finds a QUEUED job, so `execute_queued` never raises its ValueError |
| `RabTheorems.RowsFollowTable` | src/avbox/models/jobs.py:31-39 | every change of a persisted row, by whichever party, is in `TRANSITIONS`; rows start CREATED and never go away |
| `RabTheorems.RunningOnce` | src/avbox/models/jobs.py:31-39 | no job enters RUNNING twice, crashes and restarts included |
| `RabTheorems.HistoriesAreValid` | src/avbox/models/jobs.py:88-92 | the states saved for a job form a path of the table without repetition, ending in its row's state |
| `RabTheorems.RestartIsClean` | src/avbox/protocol/service.py:77-88 | service starts with an empty queue and no RAB job STAGED, QUEUED or RUNNING |
| `RabTheorems.RestartReconciles` | src/avbox/application/jobs.py:132-144 | from a crash to the next start, further crashes included, the table changes by exactly one reconciliation |
| `RabTheorems.PutSucceeds` | src/avbox/protocol/service.py:474-547 | until the shutdown sends sentinels, `put_nowait` never finds the queue full after the locked check |
| `RabTheorems.RecordIsNew` | src/avbox/application/jobs.py:72-97 | the UNIQUE constraint never refuses the record made under the lock |
| `RabTheorems.AcceptancesAgree` | src/avbox/protocol/service.py:474-547 | all acceptances for one client and key name one job and one fingerprint |
| `RabTheorems.QuietMeansTerminal` | src/avbox/protocol/service.py:748-774 | without a crash, once nothing is under way, an accepted job is terminal if and only if its own queueing did not fail |
| `RabTheorems.UploadsAreLive` | src/avbox/protocol/service.py:787-797 | without a crash and with the lock free, the upload files are exactly those of live jobs (queued, with a worker, or in the shutdown's hands) together with those of failed queueings; the two are disjoint, so only live jobs have files if and only if no queueing failed |
| `RabVerdicts.AggregateIsConservative` | src/avbox/application/scanning.py:25-40 | the aggregate is a detection exactly when some result is, MALICIOUS exactly when some result is, CLEAN exactly when some result is and none is an error or a detection, and ERROR exactly when all results are |
| `RabVerdicts.ScanDecides` | src/avbox/application/scanning.py:206-229 | in every run, from a worker's last step on a job's row is QUARANTINED if and only if its scan found something malicious, suspicious or unwanted, FAILED if and only if it raised, and COMPLETE otherwise |
| `RabVerdicts.EndedRowsWereScanned` | src/avbox/application/scanning.py:206-229 | in every run, a row that is COMPLETE or QUARANTINED got there by a scan whose verdicts say so |
| `RabLateRecord.AcceptedJobCanStayQueued` | src/avbox/protocol/service.py:90-106 | a concrete run of shutdown beside a submitter that leaves an accepted job QUEUED |
| `RabService.ScanService.CreateQueued` | src/avbox/application/scanning.py:83-99 | a new job is saved and ends QUEUED, in memory and in its row |
| `RabService.ScanService.ExecuteQueued` | src/avbox/application/scanning.py:101-233 | refused without any change unless QUEUED; otherwise the job and its row end QUARANTINED exactly when a verdict is malicious, suspicious or potentially unwanted, FAILED exactly when the scan raised, and COMPLETE otherwise |
| `RabService.RabService.Submit` | src/avbox/protocol/service.py:474-557 | the locked section: repeated, conflicting, unavailable and full requests change nothing; an accepted one adds its row, record, upload and queue entry |
| `RabService.RabService.Work` | src/avbox/protocol/service.py:754-774 | a worker's turn: the QUEUED job ends in the state its scan's verdicts call for; otherwise its row is failed, or the worker dies when the table has no way there; the upload goes in every case |
| `RabService.RabService.Drain` | src/avbox/protocol/service.py:90-102 | the drain fails exactly the queued jobs and removes exactly their uploads |
| `RabService.RabService.Restart` | src/avbox/protocol/service.py:776-785 | the table is reconciled once, and if anything was interrupted the uploads of the recorded interrupted jobs go, and no others |
| `RabService.SubmitIsSteps` | src/avbox/protocol/service.py:474-557 | the relation's six steps of a submitter compose to just the method's effect |
| `RabService.WorkIsSteps` | src/avbox/protocol/service.py:748-774 | so do a worker's four |
| `RabService.DrainIsSteps` | src/avbox/protocol/service.py:91-101 | so do the drain's three for one job |
| `RabService.SweptIsInterrupted` | src/avbox/protocol/service.py:776-785 | the restart removes just the uploads the relation sweeps |
| `Hunk.ParseHunk` | src/avbox/analyzers/executable.py:619-770 | total on arbitrary bytes: the specified error, or the specified result and the number of bytes consumed |
| `Hunk.ReadNames` | src/avbox/analyzers/executable.py:620-634 | the resident-name loop |
| `Hunk.ReadTable` | src/avbox/analyzers/executable.py:635-650 | the header table: its range checks and declared sizes |
| `Hunk.ReadGroups` | src/avbox/analyzers/executable.py:676-690 | the relocation-group loop |
| `Hunk.ReadSymbols` | src/avbox/analyzers/executable.py:693-711 | the symbol loop |
| `Hunk.ReadBodyAt` | src/avbox/analyzers/executable.py:666-717 | the branches on the record type |
| `Hunk.ReadRecords` | src/avbox/analyzers/executable.py:651-752 | the record loop, with `ended` and `current_hunk` advancing together |
| `Hunk.PrefixStable` | src/avbox/analyzers/executable.py:619-770 | any input that shares the consumed bytes gives the same result |
| `Hunk.PrefixFree` | src/avbox/analyzers/executable.py:144-146 | every strict prefix of the consumed bytes raises |
| `Hunk.ResultsAreNumbered` | src/avbox/analyzers/executable.py:651-770 | without errors there are exactly `table_size` ENDs and the last record is one; with the error only the last record is unsupported; each record's hunk index is `first` plus the ENDs before it |
| `HunkPrinter.RoundTrip` | src/avbox/analyzers/executable.py:619-770 | any file written with names, sizes, payloads, relocations and symbols, ending with its last END or before it in a record of an unknown type, is read back exactly, whatever follows it, and exactly its bytes are consumed |
| `HunkPrinter.PartsBack` | src/avbox/analyzers/executable.py:651-752 | the record loop reads back every written record, in order, under its own hunk index |
| `HunkGrammar.ParseIff` | src/avbox/analyzers/executable.py:619-770 | a parse returns this result, having consumed so many bytes, if and only if those bytes, the magic word aside, are a printed file it belongs to, complete or ending in a record of an unknown type |
| `Partitions.MarkOverlaps` | src/avbox/analyzers/partitions.py:268-272 | the neighbour loop over the sorted partitions |
| `Partitions.SortedAscends` | src/avbox/analyzers/partitions.py:269 | the sort is an ascending permutation |
| `Partitions.MarkedIffIntersecting` | src/avbox/analyzers/partitions.py:268-272 | an overlap is marked exactly when two partitions intersect, although only neighbours are compared |
| `Partitions.UnmarkedLengthsFit` | src/avbox/analyzers/partitions.py:268-272 | with no overlap marked the lengths sum to at most the image size |
| `PartitionTables.ParseMbr` | src/avbox/analyzers/partitions.py:90-156 | no table, a missing signature, or the rows' partitions and errors |
| `PartitionTables.ParseRdb` | src/avbox/analyzers/partitions.py:172-265 | no table, a refused block, or the partitions and errors of the pointer walk |
| `PartitionTables.FollowPointers` | src/avbox/analyzers/partitions.py:189-254 | the pointer loop computes the specified walk and ends on cycles |
| `PartitionTables.ParsePartitionTable` | src/avbox/analyzers/partitions.py:81-87 | RDB first, MBR otherwise |
| `PartitionTables.FollowSound` | src/avbox/analyzers/partitions.py:193-254 | the walk follows at most `max_partitions` pointers, each once, whatever cycles the blocks form |
| `PartitionTables.TablesAreSound` | src/avbox/analyzers/partitions.py:81-272 | every returned table: partitions non-empty and inside the image, an overlap reported if and only if two intersect, and otherwise lengths summing to at most the image size |
| `PartitionWriter.MbrReadsBack` | tests/test_m14c_partitions.py:20-35 | a table of primary partitions inside the image is read back row by row, with no error but its overlaps |
| `PartitionWriter.PartReads` | src/avbox/analyzers/partitions.py:210-253 | a PART block is read back as the partition it was written for |
| `PartitionWriter.PartIsGood` | tests/test_m14c_partitions.py:38-42 | the checksum writer makes the block pass the parser's checksum |
| `PartitionWriter.RdbReadsBack` | src/avbox/analyzers/partitions.py:172-265 | a chain of PART blocks at distinct pointers is read back entry by entry, with no error but its overlaps |
| `PartitionDisk.MbrIff` | src/avbox/analyzers/partitions.py:90-156 | no table, a refused one, or this table, each exactly when the four rows say so: flag, type, first sector and sector count at their offsets, the first thing wrong with each row, no more partitions than the limit, and the overlaps of those kept |
| `PartitionDisk.RowIff` | src/avbox/analyzers/partitions.py:103-124 | a row's four fields, and which of the five outcomes they mean |
| `PartitionDisk.SumIff` | src/avbox/analyzers/partitions.py:163-169 | a block passes the checksum exactly when its second word counts at least six of its words and those add up to nothing modulo 2^32 |
| `PartitionDisk.RdbIff` | src/avbox/analyzers/partitions.py:172-265 | no table, a refused one, or this table, each exactly when the bytes say so: the first of sixteen blocks that begins with RDSK, its sum, its block size, and the chain of PART blocks from its first pointer, with what each says and what ends it |
| `BoundedRange.BoundedRangeReader.Open` | src/avbox/analyzers/partitions.py:18-25 | refuses exactly the ranges not inside the root |
| `BoundedRange.BoundedRangeReader.Seek` | src/avbox/analyzers/partitions.py:27-37 | moves inside the range or raises without moving |
| `BoundedRange.BoundedRangeReader.Read` | src/avbox/analyzers/partitions.py:42-54 | exactly the range's bytes at the position, never one outside it, or an error when the root was cut short |
| `BoundedRange.BoundedRangeReader.Chunks` | src/avbox/analyzers/partitions.py:56-59 | the chunks together are exactly the range |
| `Crc16.ComputeCrc` | src/avbox/analyzers/structural.py:765-771 | the bit loop computes the CRC |
| `Crc16.StepLinear` | src/avbox/analyzers/structural.py:769-770 | the bit step is linear over exclusive or |
| `Crc16.StepInjective` | src/avbox/analyzers/structural.py:769-770 | the bit step is injective on 16-bit states |
| `Crc16.FeedLinear` | src/avbox/analyzers/structural.py:767-770 | the difference of two checksums depends on the difference of the inputs alone |
| `Crc16.NearbyChangeSeen` | src/avbox/analyzers/structural.py:765-771 | any change confined to two neighbouring bytes, anywhere, changes the CRC |
| `CrcPolynomial.CrcDivides` | src/avbox/analyzers/structural.py:765-771 | over GF(2), the bits of the data followed by the CRC's two bytes, each byte low bit first, are a multiple of x^16 + x^15 + x^2 + 1, with the quotient given |
| `CrcPolynomial.CrcIsTheRemainder` | src/avbox/analyzers/structural.py:765-771 | the CRC is the only 16-bit value of which this holds |
| `Lha.ValidateLha` | src/avbox/analyzers/structural.py:609-651 | the member loop computes the specified report and state |
| `Lha.ReadMember` | src/avbox/analyzers/structural.py:614-646 | one member's checks, in the program's order |
| `Lha.MakeLh0` | tests/test_m14b_disk_images.py:174-192 | the field-by-field writer makes the specified archive |
| `Lha.MemberReadBack` | src/avbox/analyzers/structural.py:614-646 | a written member is read back whole wherever it lies, and the one finding is a payload that does not match |
| `Lha.ArchiveReport` | src/avbox/analyzers/structural.py:609-651 | the report on a written archive of any number of members |
| `Lha.WrittenIsValid` | tests/test_m14b_disk_images.py:174-192 | every archive the writer makes is VALID |
| `Lha.AdjacentDamageReported` | src/avbox/analyzers/structural.py:643-644 | a change confined to two neighbouring payload bytes of one member is reported as one CRC mismatch and nothing else |
| `LhaDisk.ScanIff` | src/avbox/analyzers/structural.py:609-651 | the report on any bytes is that of the members lying there, by their fields, sums and polynomial CRCs, up to what ends them; they are VALID if and only if every member is whole, adds up and fits its CRC |
| `BootChecksum.BootBlockValid` | src/avbox/analyzers/structural.py:734-743 | the carry loop accepts exactly the specified blocks |
| `BootChecksum.PatchBootBlock` | tests/test_m14b_disk_images.py:156-164 | the builder's patch of word 1, in place |
| `BootChecksum.CarrySumIsResidue` | src/avbox/analyzers/structural.py:737-742 | the end-around-carry sum is 0 if all words are, else the representative in 1..2^32-1 of the sum modulo 2^32-1 |
| `BootChecksum.PatchedIsAccepted` | tests/test_m14b_disk_images.py:156-164 | patching word 1 always makes the validator accept |
| `BootChecksum.AcceptedIffSumVanishes` | src/avbox/analyzers/structural.py:734-743 | the validator accepts exactly the blocks whose words sum to a positive multiple of 2^32-1 |
| `Fixtures.SetFat` | tests/test_m14b_disk_images.py:76-87 | the entry writer, in place |
| `Fixtures.WrittenIsRead` | src/avbox/analyzers/structural.py:750-762 | the entry written is the entry read, for all three widths |
| `Fixtures.OthersKept` | src/avbox/analyzers/structural.py:750-762 | every other entry stays as it was, the FAT12 neighbour that shares a byte included |
| `Fixtures.EntryRead` | tests/test_m14b_disk_images.py:16-28 | a directory row is read as the entry it was written for, unless its name marks it free or deleted |
| `Fixtures.Checksum` | tests/test_m14b_disk_images.py:150-153 | the block checksum writer, in place |
| `Fixtures.ChecksummedIsValid` | src/avbox/analyzers/structural.py:730-731 | a block so written passes the checksum, and only word 5 has changed |
| `AdfFixture.DataBlockReads` | tests/test_m14b_disk_images.py:244-260 | a written data block passes the reader's checks and yields its chunk |
| `AdfFixture.FileReadsBack` | src/avbox/analyzers/disk_images.py:236-260 | a payload cut into data blocks as the test writer cuts it, OFS or FFS, lies there as the pieces of a file and is read back byte for byte |

## Left out

- External tools, sandboxing and OS calls, listing-text parsers, and the internals of ZIP, tar, gzip, bzip2, xz and document parsing: the engine takes them as oracles yielding members, byte streams and failures.
- Hashing is an abstract function; nothing assumes it injective. Acceptances are compared by the fingerprint itself.
- Wall-clock time: a nondeterministic flag that, once up, stays up.
- The expansion ratio is a real number, so floating-point rounding of the program's quotient is not modelled.
- Python's recursion limit.
- Name decoding and display rules (cp437, UTF-16 long names, Latin-1 text rules): FAT names are two oracles, ADF names are their bytes, and safe names in archives are a flag of the member.
- FatAgreement.ValidImageExtracts: supposes that on the rows the validator reaches both sides pass over the same names (a blank name, which only the extractor passes over, is the exception), that the signature and the FAT32 root fields are ones the extractor accepts, and that every directory fits in `max_nodes` rows, beyond which the validator stops without a finding (src/avbox/analyzers/structural.py:422).
- ContainerEngine.Engine.Process: on a run that is not COMPLETE the partition cap has a sufficient condition only; otherwise the counter is bounded by one cap a level.
- ContainerEngine.Engine.ProcessMembers: one loop stands for the document, ZIP, tar, disk-image and tool listings, each with its own checks; the messages in `job.errors`, the member metadata and the child scan jobs are not modelled.
- RAB: SQLite and file-system failures, upload streaming and its hash checks, authentication, and jobs in CREATED at restart (reconciliation covers only STAGED, QUEUED and RUNNING). Interleaving is modelled by the relation in `Rab` alone; the methods in `RabService` run without it, and sending sentinels and joining workers appear only in the relation.
- RabTheorems.UploadsAreLive: files left behind by a crash are not claimed removed; the sweep after reconciliation is a step, but a crash between the two leaves its files.
- RabTheorems.QuietMeansTerminal: says nothing after a crash; `RabTheorems.RestartReconciles` says what the restart makes of such jobs.
- FatTree.ParseIffTree: the name oracle of the extractor says what each row is called; the dot names and the empty one are passed over.
- AdfVerdict.ValidIff: speaks of disks that hold a tree; the validator also passes headers of other kinds and with unsafe names, which the extractor refuses (`AdfAgreement.ExtractorRefinesWalk`).
- Hunk.ParseHunk: type names, decoded text and the words of messages; names are their bytes without trailing zeros.
- PartitionTables.ParseRdb: the metadata dictionary beyond start, length, type and name.
- AdfFixture.FileReadsBack: the test writer's allocation of block numbers and its directory hashing are not modelled; `AdfTree.ParseIffTree` holds for any placement.
- Lha.ValidateLha: observations other than the methods and the member count.
- `_rdb`, `_iso`, PE, ELF and Mach-O field extraction, PDF, RTF, XML and CFB parsing (`chain` and `assign_tree` included), registry, settings, API, CLI and pages: shallow, I/O-bound, or easy beside the rest.
