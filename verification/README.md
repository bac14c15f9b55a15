# Camera firmware: verified models

A model, in Dafny, of the stateful parts of the camera firmware tree, with proofs about it: the squashfs and cramfs
image writers together with their readers, the hash and cipher code of the RT61 wireless driver, that driver's
connection machines and rate control, and the descriptor rings of the DM9102 network driver. `dafny verify
dfyconfig.toml` checks all of it.

## What is where

- `Bytes`, `SquashBlocks`, `SquashMetadata`: 8 KB metadata blocks, inode references, and the reader's block hash.
- `SquashDirectory`, `SquashDirectoryTable`: directory groups, the directory index, the directory table and the inodes
  of directories. `SquashFile`, `SquashFragmentTable`, `SquashFileTable`: file blocks, fragments and their table, the
  inodes of files, and extraction. `SquashTree`: a whole tree in one image, extracted from its root. `BitFields`,
  `SquashInodes`: packed records and inode headers in either byte order.
- `CramfsTree`, `CramfsDirectory`, `CramfsRecords`, `CramfsData`, `CramfsWrite`, `CramfsImage`: mkcramfs.
  `CramfsFormat`: what any image describes. `CramfsMade`: what an image that was made describes. `CramfsCheck`,
  `CramfsRoundTrip`: cramfsck on any image.
- `AesTables`, `Fips197`, `Aes`, `AesContext`: AES with its tables against FIPS 197. `HashBlocks`, `Md5`, `Sha1`:
  streaming hashes against RFC 1321, RFC 2104 and RFC 3174. `AesVectors`, `HashVectors`: examples from these standards,
  worked out, which tie what model and reference share to the standards.
- `MlmeQueue`, `Mlme`, `MlmeRuns`, `MlmeInterventions`, `MlmeHandler`: the message queue, the CNTL and AUTH machines as
  steps, all their runs, the interventions of other code in them, and the handler loop in place. `MlmeWalk`,
  `MlmeAuth`: laws of the record of a run. `RateControl`: the transmit rate.
- `DmfeRx`, `DmfeTx`: the receive and transmit rings, shared with the card.

Compression is a pair of functions with inflate undoing deflate, output never empty and at most 26 bytes longer than
the input. Disks, images and buffers are byte sequences or arrays. Integers are unbounded, and where 32-bit or 16-bit
arithmetic matters it is written out. Objects whose methods update their fields are classes; the drivers' machines are
given twice, as step functions for reasoning about runs and as methods on a class that follow them.

## Where the code does not do what is expected of it

Each of these is a lemma or method here: a concrete case, a statement of exactly when the code is right, or both.

- A squashfs directory that is empty and begins at a block boundary at the very end of the table cannot be opened if
  there are no fragments (`SquashDirectoryTable.WriteAndOpen`, `OpenLoneEmptyDirectory`). In a whole image this is the
  root of an empty tree and no other directory (`SquashTree.MakeAndExtract`).
- A squashfs image with 512 fragment blocks, or any multiple of that, loses the end of its fragment table
  (`SquashFragmentTable.WriteAndRead`); 512 files of a byte less than a block make one (`SquashFileTable.TailsInTheWay`).
- A file whose last block is short, not a tail, and begins at 2 GB or later is not extracted as it was
  (`SquashFile.ExtractedIsFile`, `TwoGigabytesAndAByte`).
- The packing macro is right only for values without bits above their field (`BitFields.OnlyTheField`).
- Authentication is repeated without end when associations are blocked in automatic mode
  (`MlmeRuns.BoundedIffNotAutomatic`, `MlmeHandler.EmptiesIff`). An intervention that finds CNTL authenticating lets an
  answer to an earlier attempt through (`MlmeInterventions.AuthenticatedIff`): the periodic task starts a scan while a
  roaming attempt waits for its answer, the user then names the network, and the answer comes while it is being joined.
  The same holds of the disassociations after MIC failures, if associations are allowed again in between. The model has
  no clock: in the driver all this must happen within the 300 ms that AUTH waits, so the scan must be a fast one over
  few channels, and the block must be lifted by the user's request, as the driver itself lifts it only after 60
  seconds. The order of confirmations always holds (`Mlme.LinkUpSafety`).
- The slot of the message being handled is reused when nine others wait (`MlmeQueue.Queue.SlotReused`).
- The timer routine can raise the rate above the highest rate (`RateControl.WithinIff`, `Overshoot`). A rate found too
  bad can be raised (`RateControl.NextRateLaws`, `BadGoesUp`). Clearing the history clears half of the qualities only
  (`RateControl.Drs.ZeroHistory`).
- An oversized packet on an idle ring leaves the transmit queue stopped (`DmfeTx.WakesIff`, `OversizedOnIdleRing`). A
  setup frame on a full ring overwrites a frame that is not yet out (`DmfeTx.PutLosesIff`, `SecondSetupLoses`).
- The hashes' 32-bit test for a piece that fits the block wraps for pieces of almost 4 GB (`HashBlocks.MisjudgedIff`,
  `Md5.Mac`).

## Model

| member | source | states |
|---|---|---|
| `SquashBlocks.UnmangleMangle` | source/source/host/open_source/squashfs-tools/mksquashfs.c:306-327 | for every block shorter than the flag bit, and either compression flag: the size code gives back exactly the stored length, and the stored bytes give back the block; with compression on the stored length is the smaller of the two, the bit is set if and only if deflating made it no shorter, and what is stored is the deflated block in the other case; with compression off it is the block |
| `SquashBlocks.ReadBlockBytes` | source/source/host/open_source/squashfs-tools/unsquashfs.c:140-190 | a metadata block with its header, anywhere on a disk, is read back byte for byte, and the position returned is the first byte behind it |
| `SquashBlocks.EncodeBlocksAppend` | source/source/host/open_source/squashfs-tools/mksquashfs.c:330-375 | flushing whole blocks one at a time and then a last piece writes the same table as encoding the whole stream at once |
| `SquashBlocks.BlockPosStable` | source/source/host/open_source/squashfs-tools/mksquashfs.c:330-375 | the position of a block in the table does not move when the stream grows |
| `SquashBlocks.EncodeBlocksTight` | source/source/host/open_source/squashfs-tools/mksquashfs.c:330-443 | every metadata table is, block for block of 8192 bytes, a size code, a marker and the shorter of the block and its deflated form |
| `SquashMetadata.ReferenceStable` | source/source/host/open_source/squashfs-tools/mksquashfs.c:258 | a reference has an offset below 8192 and, whatever is stored later, its block position and offset lead to the record in the finished stream, also when the record spans blocks |
| `SquashMetadata.Writer.FlushBlock` | source/source/host/open_source/squashfs-tools/mksquashfs.c:330-375 | the cache loses exactly one block to the table, and table and cache together still are the stream |
| `SquashMetadata.Writer.Store` | source/source/host/open_source/squashfs-tools/mksquashfs.c:330-375 | the stream grows by the record, and the reference is the one determined by the stream before it |
| `SquashMetadata.Writer.Finish` | source/source/host/open_source/squashfs-tools/mksquashfs.c:410-443 | the finished table is the whole stream cut into 8192-byte blocks, the last one short |
| `SquashMetadata.BlockHash.AddEntry` | source/source/host/open_source/squashfs-tools/unsquashfs.c:88-104 | the chained hash is updated at one 32-bit key and unchanged at all others |
| `SquashMetadata.BlockHash.LookupEntry` | source/source/host/open_source/squashfs-tools/unsquashfs.c:107-117 | the newest entry of the 32-bit key, or -1 |
| `SquashMetadata.Reader.Expand` | source/source/host/open_source/squashfs-tools/unsquashfs.c:225-241 | after the loop the expanded table is the blocks joined and the hash maps every block start, and nothing else, to where that block begins in it |
| `SquashMetadata.Reader.Locate` | source/source/host/open_source/squashfs-tools/unsquashfs.c:402-415 | where a reference leads, or nothing if its block was never listed |
| `SquashMetadata.Resolve` | source/source/host/open_source/squashfs-tools/unsquashfs.c:402-415 | a reference made at any time leads to the exact bytes stored, in the table finished later |
| `SquashMetadata.Reader.StreamEnd` | source/source/host/open_source/squashfs-tools/unsquashfs.c:585-600 | at the place where a table ends something is listed if and only if blocks of another table were read behind it |
| `SquashMetadata.StoreAll` | source/source/host/open_source/squashfs-tools/mksquashfs.c:330-443 | any records become the encoded stream of their bytes, each block stored in the shorter form, and each reference is fixed by what came before |
| `SquashMetadata.StoreAndResolve` | source/source/host/open_source/squashfs-tools/mksquashfs.c:330-443 | any list of records: every reference has an offset below 8192, and after all stores, the final flush and the reader's expansion, each reference gives back its own record |
| `SquashDirectory.Directory.constructor` | source/source/host/open_source/squashfs-tools/mksquashfs.c:694-706 | an empty directory, with no groups and no index |
| `SquashDirectory.Directory.AddDir` | source/source/host/open_source/squashfs-tools/mksquashfs.c:709-779 | the groups and the index become what the grouping of all entries so far has for one entry more, and the buffer keeps holding them, the header of the open group still to come |
| `SquashDirectory.Directory.CloseGroup` | source/source/host/open_source/squashfs-tools/mksquashfs.c:734-765 | the header of the group so far is patched in, and an index entry for the place behind it is recorded exactly when the entry at hand goes more than a block past the last mark |
| `SquashDirectory.Directory.Close` | source/source/host/open_source/squashfs-tools/mksquashfs.c:798-809 | the buffer is the concatenation of all groups with their headers |
| `SquashDirectory.BuiltOk` | source/source/host/open_source/squashfs-tools/mksquashfs.c:709-779 | the grouping of any entries keeps them all, in order: groups of 1 to 256 entries of one start block, with inode differences that fit 16 signed bits |
| `SquashDirectory.BuiltPacked` | source/source/host/open_source/squashfs-tools/mksquashfs.c:709-779 | groups are as long as they may be: a header tells of the first entry of its group, and two neighbouring groups are apart only because the first has 256 entries, the start blocks differ, the number is out of the 16-bit range, or an index entry names the second header |
| `SquashDirectory.HeaderLayout` | source/source/host/open_source/squashfs-tools/squashfs_fs.h:302-306 | where the count, the start block and the inode number of a header stand, byte by byte, in either byte order |
| `SquashDirectory.ItemLayout` | source/source/host/open_source/squashfs-tools/squashfs_fs.h:294-300 | where the offset, type, name length, difference and name of an entry stand, in either byte order; names are cut at 256 bytes |
| `SquashDirectory.BuiltIndex` | source/source/host/open_source/squashfs-tools/mksquashfs.c:734-765 | the index of any directory names group headers with the first name of the group, about 8192 bytes apart, and the directory never goes more than a block and a header past the last one |
| `SquashDirectory.LengthIs` | source/source/host/open_source/squashfs-tools/mksquashfs.c:709-779 | the length of a directory follows from its groups alone, in either byte order |
| `SquashDirectory.NamedInside` | source/source/host/open_source/squashfs-tools/mksquashfs.c:734-765 | a header named by the index lies inside the directory |
| `SquashDirectory.DenseIncreasing` | source/source/host/open_source/squashfs-tools/mksquashfs.c:734-765 | index entries are strictly increasing |
| `SquashDirectory.HeaderRead` | source/source/host/open_source/squashfs-tools/unsquashfs.c:694-704 | a header written in either byte order reads back as the same count, start block and inode number |
| `SquashDirectory.ItemRead` | source/source/host/open_source/squashfs-tools/unsquashfs.c:706-717 | an entry reads back its offset, type, name length and name, and header number plus difference is its own inode number |
| `SquashDirectory.ReadGroup` | source/source/host/open_source/squashfs-tools/unsquashfs.c:706-733 | the inner loop returns the entries of the group and stops right behind it |
| `SquashDirectory.ReadDirectory` | source/source/host/open_source/squashfs-tools/unsquashfs.c:678-737 | the loops return exactly the name, start block, offset and type of every entry, in order |
| `SquashDirectoryTable.PlaceBelow` | source/source/host/open_source/squashfs-tools/mksquashfs.c:810-845 | every index entry below the limit gets the position of the block that holds its header |
| `SquashDirectoryTable.WriteDir` | source/source/host/open_source/squashfs-tools/mksquashfs.c:782-845 | the directory is appended to the stream; the inode names its place, and each index entry gets the start of the metadata block that contains its header |
| `SquashDirectoryTable.BuildDirectory` | source/source/host/open_source/squashfs-tools/mksquashfs.c:694-779 | any sequence of entries becomes the groups and the index of its grouping |
| `SquashDirectoryTable.IndexFits` | source/source/host/open_source/squashfs-tools/mksquashfs.c:580-618 | the index is increasing and inside the directory, and below 2^27 bytes it has fewer entries than its 16-bit count can say |
| `SquashDirectoryTable.WriteDirectory` | source/source/host/open_source/squashfs-tools/mksquashfs.c:782-853 | the directory and its inode, for a long one with the index and the places of its blocks, are appended to the two streams; both are functions of the entries and of the directories before; one of 2^27 bytes or more is refused |
| `SquashDirectoryTable.PlaceStable` | source/source/host/open_source/squashfs-tools/mksquashfs.c:810-845 | a directory's place is a block of the finished table unless the directory is empty, begins at a block boundary and nothing follows |
| `SquashDirectoryTable.OpenDir` | source/source/host/open_source/squashfs-tools/unsquashfs.c:666-737 | opening a directory gives its entries, except that an empty one at a block boundary at the very end of what is read, fragment blocks included, cannot be opened |
| `SquashDirectoryTable.ShortFits` | source/source/host/open_source/squashfs-tools/mksquashfs.c:1380-1386 | a directory that gets the short inode has a size within its 19 bits |
| `SquashDirectoryTable.InodeBytesRecord` | source/source/host/open_source/squashfs-tools/mksquashfs.c:580-631 | short or long, the record begins with the header of the inode, bit for bit, in either byte order |
| `SquashDirectoryTable.ReadInode` | source/source/host/open_source/squashfs-tools/unsquashfs.c:641-666 | from the bytes of a record: its attributes, number, links and parent, and the place and size of the directory, whichever kind the header says |
| `SquashDirectoryTable.OpenRef` | source/source/host/open_source/squashfs-tools/unsquashfs.c:621-737 | from a reference, through both tables: the attributes, number, links, parent and entries of the directory, or nothing in that one case |
| `SquashDirectoryTable.WriteAndOpen` | source/source/host/open_source/squashfs-tools/unsquashfs.c:585-737 | any list of directories written, their inodes stored in the inode table, and opened through references: each comes back with its attributes, number, links and parent and entry for entry, if and only if it is not an empty one at a block boundary with no later entries and no fragments; the image is made if and only if the tables, which are functions of the entries, stay within 32 bits and each directory within 27 |
| `SquashDirectoryTable.OpenLoneEmptyDirectory` | source/source/host/open_source/squashfs-tools/unsquashfs.c:671-677 | an image whose only directory is empty, and that has no fragments: it cannot be opened |
| `SquashInodes.Pack` | source/source/host/open_source/squashfs-tools/squashfs_fs.h:363-474 | any values for consecutive fields, in either byte order: each is cut to its width; if all are within, the bytes begin with the header bit for bit |
| `SquashInodes.ReadField` | source/source/host/open_source/squashfs-tools/squashfs_fs.h:363-474 | each field of such a header reads back as its value |
| `SquashInodes.ReadBase` | source/source/host/open_source/squashfs-tools/squashfs_fs.h:363-375 | the kind, mode, owner, group, time and number of any inode read back |
| `SquashFile.ReaderAgrees` | source/source/host/open_source/squashfs-tools/unsquashfs.c:449-459 | the block count and tail length that the reader derives from file size and fragment number are the ones the writer chose |
| `SquashFile.Image.WriteFragment` | source/source/host/open_source/squashfs-tools/mksquashfs.c:919-940 | the fragment buffer becomes the next fragment on disk, in the shorter form, and in the table, or nothing happens when it is empty; all earlier files and fragments stay stored |
| `SquashFile.Image.FillFragment` | source/source/host/open_source/squashfs-tools/mksquashfs.c:944-964 | the tail is found at the returned fragment number and offset, now and after later flushes |
| `SquashFile.PieceCut` | source/source/host/open_source/squashfs-tools/mksquashfs.c:1203-1226 | each block compressed begins with the bytes of the file, and its length is the one the 32-bit computation of the available bytes gives |
| `SquashFile.Image.WriteBlocks` | source/source/host/open_source/squashfs-tools/mksquashfs.c:1165-1267 | with or without gathering blocks in a buffer of any size, the disk grows by the blocks that the contents determine, each mangled, in order, and the block list holds their size codes |
| `SquashFile.Image.WriteFile` | source/source/host/open_source/squashfs-tools/mksquashfs.c:1165-1267 | the file is added with its inode; disk, fragment table and buffer are functions of the contents and the state before, whatever the buffering; what is added to the disk is each block in the shorter form and, if the tail found no room, the fragment block; which rest of a file goes into the buffer, and when the buffer is written, as below; every file and fragment stored before is still stored |
| `SquashFile.FileOfWritten` | source/source/host/open_source/squashfs-tools/mksquashfs.c:1165-1267 | what is kept of any file: its size, its blocks as cut, and its tail |
| `SquashFile.StoredTight` | source/source/host/open_source/squashfs-tools/mksquashfs.c:306-327 | the blocks of a file on the disk are, one behind the other under their size codes, each in the shorter form |
| `SquashFile.WithFileAdds` | source/source/host/open_source/squashfs-tools/mksquashfs.c:1165-1267 | what any file adds to the disk: its blocks in the shorter form and then, exactly if a fragment block is listed, that block in the shorter form |
| `SquashFile.WithFileShares` | source/source/host/open_source/squashfs-tools/mksquashfs.c:1165-1185 | without fragments, and with a file of a block or more unless told otherwise, the rest of a file is a block of its own; otherwise it goes into the fragment buffer, which is written and emptied before that if and only if there is no room for the rest |
| `SquashFile.Extractor.ReadFragment` | source/source/host/open_source/squashfs-tools/unsquashfs.c:321-336 | through the one-entry cache, the result is what reading the fragment from disk gives |
| `SquashFile.Extractor.Extract` | source/source/host/open_source/squashfs-tools/unsquashfs.c:339-399 | the extracted bytes are the stored pieces followed by the tail |
| `SquashFile.ExtractedIsFile` | source/source/host/open_source/squashfs-tools/mksquashfs.c:1165-1267 | the extracted bytes are the file if and only if the last block is not a short one beyond 2 GB |
| `SquashFile.TwoGigabytesAndAByte` | source/source/host/open_source/squashfs-tools/mksquashfs.c:1165-1267 | a file of 2 GB and one byte with 64 KB blocks and default flags is not extracted as it was |
| `SquashFile.WriteAll` | source/source/host/open_source/squashfs-tools/mksquashfs.c:1165-1267 | any list of files, each with its own buffering, ends up in one valid image; disk, fragment table and inodes are functions of the list |
| `SquashFile.FragmentsCounted` | source/source/host/open_source/squashfs-tools/mksquashfs.c:944-964 | how many fragment blocks an image has follows from the lengths of the tails and the block size alone |
| `SquashFile.LongTails` | source/source/host/open_source/squashfs-tools/mksquashfs.c:944-964 | tails of more than half a block take a fragment block each |
| `SquashFile.WriteAndExtract` | source/source/host/open_source/squashfs-tools/unsquashfs.c:339-399 | any list of files stored one after the other and then extracted: each comes back exactly, if and only if its last block is not a short one beyond 2 GB |
| `SquashFragmentTable.WriteTable` | source/source/host/open_source/squashfs-tools/mksquashfs.c:967-1014 | the blocks written are the encoding of the table, unless its last block is a whole one: then that block is an empty one with junk behind it; the index gives the place of every block |
| `SquashFragmentTable.EmptyReads` | source/source/host/open_source/squashfs-tools/unsquashfs.c:140-190 | the header of such a block announces 32768 bytes, more than the reader has room for |
| `SquashFragmentTable.ReadTable` | source/source/host/open_source/squashfs-tools/unsquashfs.c:286-309 | the table read is the table written, if and only if its last block is not a whole one |
| `SquashFragmentTable.WriteAndRead` | source/source/host/open_source/squashfs-tools/unsquashfs.c:286-318 | any fragment entries written and read back: they are the same if and only if there are none or their number is no multiple of 512 |
| `SquashFileTable.RecordOfRecords` | source/source/host/open_source/squashfs-tools/mksquashfs.c:535-579 | short or long, the record is the header of the inode bit for bit and the block list behind it |
| `SquashFileTable.ReadInode` | source/source/host/open_source/squashfs-tools/unsquashfs.c:431-490 | from the bytes of a record: its attributes, number and links and all that it says of the data, the block list as long as size and fragment imply |
| `SquashFileTable.WrittenFits` | source/source/host/open_source/squashfs-tools/mksquashfs.c:1254-1257 | whatever was written for a file fits the fields of the inode chosen for it |
| `SquashFileTable.ExtractRef` | source/source/host/open_source/squashfs-tools/unsquashfs.c:402-490 | from a reference, through the inode table, block list and fragments: the attributes, number and links and the stored bytes of the file |
| `SquashFileTable.StoreAndExtract` | source/source/host/open_source/squashfs-tools/unsquashfs.c:402-490 | any list of files with inodes and fragments in the tables, extracted through those tables: attributes, numbers and links come back, and the bytes if and only if the last block is not a short one beyond 2 GB; it works if and only if the data stay within 64 bits, the inode table within 32 and the tails take no fragment blocks or no multiple of 512, all of them functions of the files |
| `SquashFileTable.TailsInTheWay` | source/source/host/open_source/squashfs-tools/mksquashfs.c:967-1014 | 512 files, or any multiple of that, each a byte shorter than a block: they cannot be extracted |
| `SquashTree.WriteNode` | source/source/host/open_source/squashfs-tools/mksquashfs.c:1606-1717 | the scan of a tree, depth first, on the image and the two tables being written, is a function of the tree and of what was written before |
| `SquashTree.DataOfTree` | source/source/host/open_source/squashfs-tools/mksquashfs.c:1606-1717 | the data of a tree are those of its files in the order of the scan, whatever directories lie between them |
| `SquashTree.EntryInside` | source/source/host/open_source/squashfs-tools/mksquashfs.c:1606-1717 | behind every entry of a directory there are, in the finished table, the bytes of the directory itself; so no directory but the root can be at the end |
| `SquashTree.EntryIs` | source/source/host/open_source/squashfs-tools/unsquashfs.c:762-799 | what the reader is told of an entry in the finished image is its name, its type and the reference that was made for it |
| `SquashTree.Extract` | source/source/host/open_source/squashfs-tools/unsquashfs.c:762-799 | from the reference to any directory of the tree: the whole tree below it, unless it is empty, at a block boundary and nothing is behind it |
| `SquashTree.SameTree` | source/source/host/open_source/squashfs-tools/unsquashfs.c:339-399 | what is extracted is the tree itself, names cut to 256 bytes, every directory with two links and one for each directory in it and with the number of the one that it is in, if and only if no file ends in a short block beyond 2 GB |
| `SquashTree.MakeImage` | source/source/host/open_source/squashfs-tools/mksquashfs.c:2179-2200 | the data on the disk are those of the list of files, and the two tables the encoded streams of the tree, each block in the shorter form |
| `SquashTree.MakeAndExtract` | source/source/host/open_source/squashfs-tools/unsquashfs.c:872-940 | any tree of directories and files made into one image, with data, inode table, directory table and fragment table, and extracted from its root: it works if and only if everything fits and the tails take no multiple of 512 fragment blocks; the root opens if and only if it is not empty; then the tree comes back if and only if no file ends in a short block beyond 2 GB |
| `BitFields.OnlyTheField` | source/source/host/open_source/squashfs-tools/mksquashfs.h:39-47 | the packing macro ORs in the bits of its field and no others if and only if the bits above the field in its first byte are zero |
| `BitFields.PackField` | source/source/host/open_source/squashfs-tools/mksquashfs.h:39-47 | every bit of the buffer is its old value ORed with the shifted value |
| `BitFields.UnpackField` | source/source/host/open_source/squashfs-tools/read_fs.h:39-48 | the low bits of the result are the bits of the field, most significant first |
| `BitFields.PackRecord` | source/source/host/open_source/squashfs-tools/squashfs_fs.h:363-474 | fields that do not overlap, packed in any order into a zeroed buffer, give the bit concatenation of the fields |
| `BitFields.RoundTrip` | source/source/host/open_source/squashfs-tools/squashfs_fs.h:363-474 | packing any record of fields that do not overlap and unpacking each gives every value back, truncated to its width, and the buffer is the bit concatenation |
| `BitFields.ConsecutiveIsLayout` | source/source/host/open_source/squashfs-tools/squashfs_fs.h:363-474 | consecutive fields within the record make such a layout |
| `BitFields.SuperBlockRecord` | source/source/host/open_source/squashfs-tools/squashfs_fs.h:332-361 | the superblock's fields fill its 119 bytes without gap or overlap |
| `BitFields.IpcInodeRecord` | source/source/host/open_source/squashfs-tools/squashfs_fs.h:377-383 | the fields of this inode fill its 16 bytes |
| `BitFields.DevInodeRecord` | source/source/host/open_source/squashfs-tools/squashfs_fs.h:384-399 | the fields of device and symbolic-link inodes fill their 18 bytes |
| `BitFields.RegInodeRecord` | source/source/host/open_source/squashfs-tools/squashfs_fs.h:400-409 | the fields of a regular-file inode fill its 32 bytes |
| `BitFields.LregInodeRecord` | source/source/host/open_source/squashfs-tools/squashfs_fs.h:410-420 | the same for the large regular-file inode |
| `BitFields.DirInodeRecord` | source/source/host/open_source/squashfs-tools/squashfs_fs.h:421-431 | the same for the directory inode |
| `BitFields.LdirInodeRecord` | source/source/host/open_source/squashfs-tools/squashfs_fs.h:432-443 | the same for the indexed directory inode |
| `BitFields.DirectoryRecords` | source/source/host/open_source/squashfs-tools/squashfs_fs.h:444-474 | the same for index entries, group headers, directory entries and fragment entries |
| `CramfsTree.FindsFirst` | source/toolchain/src/cramfs-1.1/mkcramfs.c:183-205 | the recursive search finds the first entry in preorder with the same bytes, or reaches the entry itself |
| `CramfsTree.EliminateDoubles` | source/toolchain/src/cramfs-1.1/mkcramfs.c:207-214 | afterwards an entry with data has a link if and only if an earlier one has the same bytes, and the link leads to the first such entry |
| `CramfsDirectory.OrderOnce` | source/toolchain/src/cramfs-1.1/mkcramfs.c:461-552 | the recursive order of writing contains every entry exactly once |
| `CramfsDirectory.BlockSize` | source/toolchain/src/cramfs-1.1/mkcramfs.c:368-372 | the records of a directory take exactly the bytes that were summed for it |
| `CramfsDirectory.ReverseFrom` | source/toolchain/src/cramfs-1.1/mkcramfs.c:526-536 | the swaps reverse the upper segment of the stack and leave the rest alone |
| `CramfsDirectory.WriteList` | source/toolchain/src/cramfs-1.1/mkcramfs.c:476-518 | one directory: its records are written in order and its non-empty directories pushed in order |
| `CramfsDirectory.WriteDirectoryStructure` | source/toolchain/src/cramfs-1.1/mkcramfs.c:461-552 | the loop with the explicit stack writes exactly the recursive preorder of directories, sets each directory's offset to where its children stand contiguously, and fails if and only if an offset does not fit |
| `CramfsRecords.DecodeEncode` | source/toolchain/src/cramfs-1.1/linux/cramfs_fs.h:19-48 | the inode bit fields survive encoding and decoding |
| `CramfsRecords.InodeLayout` | source/toolchain/src/cramfs-1.1/linux/cramfs_fs.h:19-48 | where mode, owner, size, group, name length and offset stand in an inode, byte by byte |
| `CramfsRecords.PatchIsUpdate` | source/toolchain/src/cramfs-1.1/mkcramfs.c:412-423 | setting the offset in an encoded inode is the encoding of the inode with that offset |
| `CramfsRecords.LaidOut` | source/toolchain/src/cramfs-1.1/mkcramfs.c:461-552 | written in that order with those offsets, every record of the tree stands where its parent's offset says |
| `CramfsData.IsZeroIff` | source/toolchain/src/cramfs-1.1/mkcramfs.c:554-566 | the shifted comparison finds exactly the blocks of zero bytes |
| `CramfsData.DoCompress` | source/toolchain/src/cramfs-1.1/mkcramfs.c:578-627 | the loop produces the block pointers followed by the stored blocks, padded to four bytes, holes taking no bytes |
| `CramfsData.BlobSize` | source/toolchain/src/cramfs-1.1/mkcramfs.c:355-363 | the data of a file never take more than the allowance made for them, and end at a multiple of four |
| `CramfsData.BlobPieces` | source/toolchain/src/cramfs-1.1/mkcramfs.c:578-627 | each block pointer is the end of its block, and the block stands between its pointer and the one before |
| `CramfsData.Rom.Read` | source/toolchain/src/cramfs-1.1/cramfsck.c:288-297 | the cached two-block window shows the image from any offset on for at least 8 KB |
| `CramfsWrite.WriteData` | source/toolchain/src/cramfs-1.1/mkcramfs.c:635-656 | every data entry has its bytes at its offset, doubles at the offset of the original, offsets are multiples of four; it stops only when the area has reached the offset limit, and never exceeds the allowance |
| `CramfsWrite.SharedIffIdentical` | source/toolchain/src/cramfs-1.1/mkcramfs.c:635-656 | two data entries share an offset if and only if their bytes are equal |
| `CramfsWrite.OriginalOf` | source/toolchain/src/cramfs-1.1/mkcramfs.c:635-656 | the original of an entry is the preorder-first one with its bytes, has no link itself, and has its offset already |
| `CramfsImage.SuperFields` | source/toolchain/src/cramfs-1.1/mkcramfs.c:376-410 | every field of the superblock reads back as written, each at its own place |
| `CramfsImage.BlocksCountedOnce` | source/toolchain/src/cramfs-1.1/mkcramfs.c:635-656 | the number of blocks in the superblock counts the blocks of every file and link, those of identical ones once |
| `CramfsImage.ZeroedAgain` | source/toolchain/src/cramfs-1.1/mkcramfs.c:823-826 | the checksum is over the image with a zero in the checksum's own place |
| `CramfsImage.EstimateHolds` | source/toolchain/src/cramfs-1.1/mkcramfs.c:690-830 | the rounded size of the image is at most the estimate made while reading the tree |
| `CramfsImage.DirectoriesFit` | source/toolchain/src/cramfs-1.1/mkcramfs.c:412-423 | if all directory offsets fit, the structure ends less than 16 MB beyond the limit; if one does not, the structure reaches the limit |
| `CramfsImage.Assemble` | source/toolchain/src/cramfs-1.1/mkcramfs.c:796-826 | boot space, superblock with its checksum, inserted image, directory structure and data all stand at their offsets, and only zeros lie between the inserted image and the directories and behind the data |
| `CramfsImage.Mkcramfs` | source/toolchain/src/cramfs-1.1/mkcramfs.c:682-835 | the image holds the tree, the inserted image, edition and name, counts every block once, and is no larger than the estimate; it gives up for lack of space only if the estimate exceeded the largest file system, and for an offset only if the sizes reach the offset limit |
| `CramfsFormat.FileOnce` | source/toolchain/src/cramfs-1.1/cramfsck.c:361-405 | block pointers, compressed blocks and a size describe the bytes of one file at most |
| `CramfsFormat.ListedOnce` | source/toolchain/src/cramfs-1.1/cramfsck.c:430-490 | an image, whoever made it, describes one tree at most |
| `CramfsMade.MadePiece` | source/toolchain/src/cramfs-1.1/mkcramfs.c:578-627 | a block of a file takes no bytes if and only if holes are allowed and it is all zeros; otherwise the deflated block stands between the pointer before and its own |
| `CramfsMade.MadeFile` | source/toolchain/src/cramfs-1.1/mkcramfs.c:578-627 | the data that were written for a file describe that file |
| `CramfsMade.MadeListed` | source/toolchain/src/cramfs-1.1/mkcramfs.c:461-656 | an image that was made describes the tree that it was made of |
| `CramfsMade.MadeMarks` | source/toolchain/src/cramfs-1.1/mkcramfs.c:461-656 | in such an image the last record ends where the space for directories does, no data lie before that, and none end behind the image |
| `CramfsCheck.Fsck.DoUncompress` | source/toolchain/src/cramfs-1.1/cramfsck.c:361-405 | on any image: passes if and only if the block pointers and blocks at that place describe a file of that size, and the output is that file; the end of data is raised to the end of its last block |
| `CramfsCheck.Fsck.DoFile` | source/toolchain/src/cramfs-1.1/cramfsck.c:492-522 | on any image and inode: passes if and only if the inode stands for a file, with an offset exactly if it is not empty; the bytes are the file's, and the start of data is lowered to its offset |
| `CramfsCheck.Fsck.DoSymlink` | source/toolchain/src/cramfs-1.1/cramfsck.c:524-566 | passes if and only if the inode stands for a link, and the target is the one it describes |
| `CramfsCheck.Fsck.DoSpecial` | source/toolchain/src/cramfs-1.1/cramfsck.c:568-611 | passes exactly devices, and pipes and sockets of size zero, that have no offset |
| `CramfsCheck.Fsck.ExpandFs` | source/toolchain/src/cramfs-1.1/cramfsck.c:613-627 | passes if and only if the inode stands for an entry with what is below it, unless directories lie deeper in each other than the stack allows; what was found is that entry |
| `CramfsCheck.Fsck.OneEntry` | source/toolchain/src/cramfs-1.1/cramfsck.c:459-488 | on any image: passes if and only if a record with a proper name and an entry stand at that place, and the marks of directories and data are those of the entry |
| `CramfsCheck.Fsck.DoDirectory` | source/toolchain/src/cramfs-1.1/cramfsck.c:430-490 | on any image and inode: passes if and only if the inode stands for a directory, and the tree found is the one it describes; the marks are those of the tree |
| `CramfsRoundTrip.TestSuper` | source/toolchain/src/cramfs-1.1/cramfsck.c:133-202 | on any image: accepted if and only if a plausible superblock stands at the front, or behind the boot space when there is none at the front |
| `CramfsRoundTrip.WrittenIsPlausible` | source/toolchain/src/cramfs-1.1/mkcramfs.c:376-410 | the superblock that was written is plausible, and none is seen in the boot space |
| `CramfsRoundTrip.TestCrc` | source/toolchain/src/cramfs-1.1/cramfsck.c:204-265 | passes if and only if the checksum over the image from the superblock on, with its own field zeroed, is the stored one; an image in the old format passes exactly in the build with the file-system tests |
| `CramfsRoundTrip.Borders` | source/toolchain/src/cramfs-1.1/cramfsck.c:629-655 | the lowest data offset of an image that was made is the end of the directory structure, unless there are no data |
| `CramfsRoundTrip.TestFs` | source/toolchain/src/cramfs-1.1/cramfsck.c:629-655 | on any image: passes if and only if the root is a directory in its place that describes a tree, data begin behind the superblock and where the directories end, and end within the size; the tree found is that tree |
| `CramfsRoundTrip.Cramfsck` | source/toolchain/src/cramfs-1.1/cramfsck.c:658-700 | on any image: passes if and only if superblock, checksum, tree and borders are in order, and the tree found is the one described; what it does when led out of the image or too deep is left open, and no such image is in order within that depth |
| `CramfsRoundTrip.PassesOnce` | source/toolchain/src/cramfs-1.1/cramfsck.c:658-700 | there is one tree at most with which an image is in order |
| `CramfsRoundTrip.MadePasses` | source/toolchain/src/cramfs-1.1/mkcramfs.c:682-835 | every image that was made is in order, with the tree it was made of |
| `CramfsRoundTrip.MakeAndCheck` | source/toolchain/src/cramfs-1.1/cramfsck.c:629-700 | for every tree in range: the image made passes every test of the checker, if its stack is deep enough for the directories, and the tree found is the tree put in, with every byte of every file; the inserted image is in it |
| `Fips197.SBoxIsAffineOfInverse` | source/source/src/kmods/RT61_Linux_STA_Drv1.1.2.1/md5.c:700-734 | for all bytes x and y, the S-box of x is the affine transformation of y if and only if y is the inverse of x in the field, or both are zero |
| `Fips197.SBoxesInverse` | source/source/src/kmods/RT61_Linux_STA_Drv1.1.2.1/md5.c:700-860 | the two S-box tables are inverse to each other, both ways |
| `Fips197.InvMixColUndoesMixCol` | source/source/src/kmods/RT61_Linux_STA_Drv1.1.2.1/md5.c:862-927 | unmixing a column undoes mixing it |
| `Fips197.InvCipherInvertsCipher` | source/source/src/kmods/RT61_Linux_STA_Drv1.1.2.1/md5.c:1129-1304 | for all round keys the inverse cipher of FIPS 197 section 5.3 inverts the cipher of section 5.1 |
| `Fips197.EqInvCipherIsInvCipher` | source/source/src/kmods/RT61_Linux_STA_Drv1.1.2.1/md5.c:1218-1304 | with derived keys, the equivalent inverse cipher of section 5.3.5 is the inverse cipher |
| `Aes.ForwardEntries` | source/source/src/kmods/RT61_Linux_STA_Drv1.1.2.1/md5.c:737-822 | every entry of the four forward tables is the mixed S-box value |
| `Aes.ReverseEntries` | source/source/src/kmods/RT61_Linux_STA_Drv1.1.2.1/md5.c:862-947 | every entry of the four reverse tables is the unmixed inverse S-box value |
| `Aes.FRoundIsARound` | source/source/src/kmods/RT61_Linux_STA_Drv1.1.2.1/md5.c:1129-1162 | four table lookups per word are substitution, row shift, column mix and key addition |
| `Aes.RRoundIsAnInverseRound` | source/source/src/kmods/RT61_Linux_STA_Drv1.1.2.1/md5.c:1218-1252 | the same for a round of decryption |
| `Aes.KColumnUnmixes` | source/source/src/kmods/RT61_Linux_STA_Drv1.1.2.1/md5.c:1074-1110 | the key tables of the schedule do nothing but unmix a column |
| `AesContext.RconIsPowerOfX` | source/source/src/kmods/RT61_Linux_STA_Drv1.1.2.1/md5.c:949-954 | the round constants are the powers of x in the field |
| `AesContext.Context.SetKey` | source/source/src/kmods/RT61_Linux_STA_Drv1.1.2.1/md5.c:985-1125 | for 128, 192 and 256 bits the encryption keys are the key expansion of FIPS 197 section 5.2 and the decryption keys are derived from them; any other length is refused and changes nothing; no index leaves the key arrays |
| `AesContext.DerivedKeys` | source/source/src/kmods/RT61_Linux_STA_Drv1.1.2.1/md5.c:1086-1123 | the copied and unmixed words are the keys of the equivalent inverse cipher |
| `AesContext.Context.Encrypt` | source/source/src/kmods/RT61_Linux_STA_Drv1.1.2.1/md5.c:1129-1214 | the output is the cipher of FIPS 197 of the input, in place or not |
| `AesContext.Context.Decrypt` | source/source/src/kmods/RT61_Linux_STA_Drv1.1.2.1/md5.c:1218-1304 | the output is the equivalent inverse cipher of the input, in place or not |
| `AesContext.EncryptThenDecrypt` | source/source/src/kmods/RT61_Linux_STA_Drv1.1.2.1/md5.c:985-1304 | for every key of 128, 192 or 256 bits and every block, decryption gives back the block |
| `AesVectors.AppendixC1` | source/source/src/kmods/RT61_Linux_STA_Drv1.1.2.1/md5.c:985-1214 | the example of appendix C.1 of FIPS 197, worked out with its key schedule: the cipher of that block under that key is that block |
| `AesVectors.AppendixA2` | source/source/src/kmods/RT61_Linux_STA_Drv1.1.2.1/md5.c:1024-1041 | the first six words that the key of appendix A.2 expands to |
| `AesVectors.AppendixA3` | source/source/src/kmods/RT61_Linux_STA_Drv1.1.2.1/md5.c:1043-1067 | the first eight words that the key of appendix A.3 expands to |
| `HashBlocks.CountsNext` | source/source/src/kmods/RT61_Linux_STA_Drv1.1.2.1/md5.c:197-204 | the two-word counter with its carry test is eight times the length modulo 2^64 |
| `HashBlocks.MisjudgedIff` | source/source/src/kmods/RT61_Linux_STA_Drv1.1.2.1/md5.c:209-218 | the 32-bit test lets a piece through that does not fit the block, if and only if place plus length wraps around |
| `HashBlocks.PaddedShort` | source/source/src/kmods/RT61_Linux_STA_Drv1.1.2.1/md5.c:262-316 | padding in one block is the padding of RFC 1321 section 3.1 |
| `HashBlocks.PaddedLong` | source/source/src/kmods/RT61_Linux_STA_Drv1.1.2.1/md5.c:262-316 | padding over two blocks is the same padding |
| `Md5.WordsAgree` | source/source/src/kmods/RT61_Linux_STA_Drv1.1.2.1/md5.c:344-442 | the formulas for the message words give the order that RFC 1321 section 3.4 lists |
| `Md5.ShiftsAgree` | source/source/src/kmods/RT61_Linux_STA_Drv1.1.2.1/md5.c:344-442 | the shifts are those of RFC 1321 section 3.4 |
| `Md5.RoundBits` | source/source/src/kmods/RT61_Linux_STA_Drv1.1.2.1/md5.c:142-146 | bit by bit, the functions of the four rounds: choice, choice by the last word, parity, and the word in the middle turned round unless the last is set and the first is not |
| `Md5.Transform` | source/source/src/kmods/RT61_Linux_STA_Drv1.1.2.1/md5.c:344-442 | the loops with rotating registers compute the 64 operations of the RFC |
| `Md5.Context.Update` | source/source/src/kmods/RT61_Linux_STA_Drv1.1.2.1/md5.c:190-244 | the copy runs past the block if and only if the block is not empty and place plus length reaches 2^32; otherwise the message grows by exactly the bytes of the piece |
| `Md5.Context.Final` | source/source/src/kmods/RT61_Linux_STA_Drv1.1.2.1/md5.c:262-316 | the digest is that of the whole message |
| `Md5.DigestOfPieces` | source/source/src/kmods/RT61_Linux_STA_Drv1.1.2.1/md5.c:162-316 | for every way of cutting a message into pieces, none of which runs past its block in that way, the digest is the fold over the padded message |
| `HashVectors.Md5OfAbc` | source/source/src/kmods/RT61_Linux_STA_Drv1.1.2.1/md5.c:162-442 | the digest of "abc" is the one in appendix A.5 of RFC 1321, worked out step by step; it ties table, start values, byte order and the order of steps to the RFC |
| `Md5.Mac` | source/source/src/kmods/RT61_Linux_STA_Drv1.1.2.1/md5.c:46-55 | the digest of key, data and key, unless data or the second key run past the block, and exactly when they do |
| `Md5.Hmac` | source/source/src/kmods/RT61_Linux_STA_Drv1.1.2.1/md5.c:69-124 | HMAC-MD5 of RFC 2104 for keys and data of any 32-bit length, long keys hashed first |
| `Sha1.Expand` | source/source/src/kmods/RT61_Linux_STA_Drv1.1.2.1/md5.c:645-656 | the in-place schedule is the 80 words of RFC 3174 section 6.1 |
| `Sha1.Transform` | source/source/src/kmods/RT61_Linux_STA_Drv1.1.2.1/md5.c:630-694 | the loop computes the 80 steps of the RFC, with the functions and constants below |
| `Sha1.FBits` | source/source/src/kmods/RT61_Linux_STA_Drv1.1.2.1/md5.c:448-450 | bit by bit, the functions of the steps: choice, parity, at least two of three, parity |
| `Sha1.KRoots` | source/source/src/kmods/RT61_Linux_STA_Drv1.1.2.1/md5.c:663-677 | the constants are the square roots of 2, 3, 5 and 10 times 2^30 without the fraction |
| `Sha1.OverflowIff` | source/source/src/kmods/RT61_Linux_STA_Drv1.1.2.1/md5.c:493-503 | the test on the high word fails exactly when the length no longer fits 64 bits |
| `Sha1.Context.Update` | source/source/src/kmods/RT61_Linux_STA_Drv1.1.2.1/md5.c:486-549 | too long if and only if the message reaches 2^64 bits, else past the block if and only if place plus length wraps around; otherwise the message grows by the piece |
| `Sha1.Context.Final` | source/source/src/kmods/RT61_Linux_STA_Drv1.1.2.1/md5.c:554-625 | the digest is that of the whole message |
| `Sha1.DigestOfPieces` | source/source/src/kmods/RT61_Linux_STA_Drv1.1.2.1/md5.c:458-625 | for every way of cutting, the first piece that is too long or runs past the block decides; if there is none, the digest is that of RFC 3174 |
| `Sha1.SmallPieces` | source/source/src/kmods/RT61_Linux_STA_Drv1.1.2.1/md5.c:486-549 | pieces of at most 2^32 - 64 bytes are all taken if and only if the message has less than 2^64 bits |
| `HashVectors.Sha1OfAbc` | source/source/src/kmods/RT61_Linux_STA_Drv1.1.2.1/md5.c:458-694 | the digest of "abc" is the one in section 7.3 of RFC 3174, worked out step by step |
| `MlmeQueue.Queue.Enqueue` | source/source/src/kmods/RT61_Linux_STA_Drv1.1.2.1/mlme.c:3141-3192 | refused exactly while halting, when too long, or when full; otherwise the element is last in line |
| `MlmeQueue.Queue.Dequeue` | source/source/src/kmods/RT61_Linux_STA_Drv1.1.2.1/mlme.c:3325-3346 | the first element in line leaves the queue, and its slot is free from then on |
| `MlmeQueue.Queue.SlotReused` | source/source/src/kmods/RT61_Linux_STA_Drv1.1.2.1/mlme.c:310-340 | the slot of the element being handled is the next to be overwritten exactly when nine others wait |
| `Mlme.MlmeCntlMachinePerformAction` | source/source/src/kmods/RT61_Linux_STA_Drv1.1.2.1/connect.c:99-173 | CNTL leaves the other machines alone, adds at most one request, and brings the link up exactly on a successful association it waits for; which requests it makes, and in which order, as below |
| `Mlme.AuthFrame` | source/source/src/kmods/RT61_Linux_STA_Drv1.1.2.1/auth.c:98-383 | AUTH leaves CNTL alone, is idle again whenever it reports, and keeps its timer running while it waits |
| `Mlme.NextTraced` | source/source/src/kmods/RT61_Linux_STA_Drv1.1.2.1/connect.c:606-829 | every event, interventions, restarts and the blocking of associations included, keeps the record of joins and authentications in line with the state |
| `Mlme.NextTimer` | source/source/src/kmods/RT61_Linux_STA_Drv1.1.2.1/auth.c:98-383 | every event keeps a timer running, or a timeout queued, while AUTH waits |
| `Mlme.NextClean` | source/source/src/kmods/RT61_Linux_STA_Drv1.1.2.1/connect.c:606-829 | every event but an intervention that finds CNTL busy keeps exactly one activity under way for what CNTL waits for |
| `Mlme.LinkUpSafety` | source/source/src/kmods/RT61_Linux_STA_Drv1.1.2.1/connect.c:606-829 | in every run, with interventions and restarts anywhere and associations blocked and unblocked at will, each link up follows a join, an authentication and an association, in that order and with the same index and nothing else between |
| `Mlme.CleanRuns` | source/source/src/kmods/RT61_Linux_STA_Drv1.1.2.1/mlme.c:843-895 | in every run whose interventions find CNTL idle, with restarts anywhere, what CNTL waits for is under way in exactly one place |
| `MlmeWalk.ProperWalks` | source/source/src/kmods/RT61_Linux_STA_Drv1.1.2.1/connect.c:606-829 | in every such run, on the record alone: within a walk the networks asked for are 0, 1, 2 and so on without gap; one is left for the next only on a failed join, a failed last authentication or a failed association; authentications ask for the algorithm that the mode calls for |
| `MlmeWalk.TableStays` | source/source/src/kmods/RT61_Linux_STA_Drv1.1.2.1/connect.c:606-829 | the table that is walked does not change during a walk |
| `MlmeWalk.ComesToRest` | source/source/src/kmods/RT61_Linux_STA_Drv1.1.2.1/connect.c:1346-1405 | a walk among access points that no restart cuts off comes to rest only with a link, or after the last network of the table |
| `MlmeAuth.ConfirmedIsEarned` | source/source/src/kmods/RT61_Linux_STA_Drv1.1.2.1/auth.c:98-304 | in every run, whatever intervenes: AUTH confirms success only on a well-formed frame of the address in hand that grants it, the second frame after a request for open authentication, the fourth after the second one granted a request with shared keys |
| `MlmeAuth.SecondLinkOnlyRoaming` | source/source/src/kmods/RT61_Linux_STA_Drv1.1.2.1/connect.c:283-571 | in every run: while there is a link another network is gone after only on a request to roam |
| `MlmeRuns.ConfirmationsBounded` | source/source/src/kmods/RT61_Linux_STA_Drv1.1.2.1/connect.c:700-829 | in every such run an attempt takes at most five confirmations for each network in its table, and in automatic mode one more for each open authentication refused while associations are blocked |
| `MlmeRuns.LenientRunsBounded` | source/source/src/kmods/RT61_Linux_STA_Drv1.1.2.1/connect.c:700-829 | if nothing blocks associations, five confirmations for each network are enough in every mode |
| `MlmeRuns.StuckForever` | source/source/src/kmods/RT61_Linux_STA_Drv1.1.2.1/connect.c:754-799 | once stuck, the machines repeat the refused request with every turn, for any number of turns |
| `MlmeRuns.ReachStuck` | source/source/src/kmods/RT61_Linux_STA_Drv1.1.2.1/auth.c:98-165 | a run from the start leads there: associations are blocked while shared keys are tried and refused |
| `MlmeRuns.BoundedIffNotAutomatic` | source/source/src/kmods/RT61_Linux_STA_Drv1.1.2.1/connect.c:754-799 | the bound of five holds of all such runs if and only if the mode is not automatic switching with an access point; otherwise one network can take any number of confirmations |
| `MlmeInterventions.NextLoose` | source/source/src/kmods/RT61_Linux_STA_Drv1.1.2.1/auth.c:98-383 | every event but an intervention that finds CNTL authenticating keeps AUTH at exactly what CNTL waits for, with no join to change the address before it is done |
| `MlmeInterventions.LinkUpAuthenticated` | source/source/src/kmods/RT61_Linux_STA_Drv1.1.2.1/auth.c:172-304 | in every run whose interventions spare the authenticating states, each link up is with an address whose own answer authenticated that very attempt |
| `MlmeInterventions.InterventionMisleads` | source/source/src/kmods/RT61_Linux_STA_Drv1.1.2.1/mlme.c:1258-1274 | for every mode, each of the two authenticating states and each of the three interventions: a run in which the link comes up on the answer to an earlier attempt |
| `MlmeInterventions.AuthenticatedIff` | source/source/src/kmods/RT61_Linux_STA_Drv1.1.2.1/mlme.c:675-757 | for every policy of which state an intervention may find and put: all runs that follow it bring the link up only on their own authentication, if and only if none finds CNTL authenticating, or there is no access point |
| `MlmeHandler.ServeCloser` | source/source/src/kmods/RT61_Linux_STA_Drv1.1.2.1/mlme.c:285-352 | every turn of the loop leaves fewer other messages or brings CNTL closer to rest, by a lexicographic measure, unless AUTH refuses what CNTL will ask for again |
| `MlmeHandler.TurnEndless` | source/source/src/kmods/RT61_Linux_STA_Drv1.1.2.1/mlme.c:285-352 | a turn neither leads into the endless loop nor out of it |
| `MlmeHandler.EmptiesIff` | source/source/src/kmods/RT61_Linux_STA_Drv1.1.2.1/mlme.c:285-352 | from any state that runs with interventions at rest reach, handling one message after the other empties the queue if and only if it is not so that associations are blocked in automatic mode with shared keys on record, and an authentication is asked for, has failed or will fail on a message already there |
| `MlmeHandler.Machine.Reset` | source/source/src/kmods/RT61_Linux_STA_Drv1.1.2.1/mlme.c:3348-3412 | the restart on the object's fields is that event of the run |
| `MlmeHandler.Machine.ServeOne` | source/source/src/kmods/RT61_Linux_STA_Drv1.1.2.1/mlme.c:285-352 | one turn of the loop on the object's fields is one event of the run; it keeps the record, the timer and the one activity, and, unless AUTH refuses what CNTL will ask for again, the measure goes down |
| `MlmeHandler.Machine.Handler` | source/source/src/kmods/RT61_Linux_STA_Drv1.1.2.1/mlme.c:285-352 | from every state but an endless one the loop ends with an empty queue, its effect is that of a run of those turns, and all invariants hold again |
| `RateControl.Tables` | source/source/src/kmods/RT61_Linux_STA_Drv1.1.2.1/mlme.c:36-63 | every entry of the rate tables, the four-entry ones included, is a rate, and in the direction the table is for |
| `RateControl.UpThenDown` | source/source/src/kmods/RT61_Linux_STA_Drv1.1.2.1/mlme.c:36-63 | the next rate down from the next rate up is the rate itself, where all rates are allowed and where only new ones are, but for 6 and 9 Mbps among all |
| `RateControl.DecodeSpeeds` | source/source/src/kmods/RT61_Linux_STA_Drv1.1.2.1/mlme.c:1826-1843 | every rate is known by its speed, marked as basic or not, and nothing else is; marked rates are basic, and 6, 12 and 24 Mbps always |
| `RateControl.HighestForBoth` | source/source/src/kmods/RT61_Linux_STA_Drv1.1.2.1/mlme.c:1845-1942 | the highest rate is the smaller of what both sides list, and an old one where new ones are not allowed; rates are switched if and only if two or more are desired |
| `RateControl.FirstRateSteps` | source/source/src/kmods/RT61_Linux_STA_Drv1.1.2.1/mlme.c:1944-1978 | where the steps of the first rate lie: at most 11 Mbps below -75 dBm, at most 24 below -70 or on a new link |
| `RateControl.RatioIsPercentage` | source/source/src/kmods/RT61_Linux_STA_Drv1.1.2.1/mlme.c:1412-1417 | the error ratio is the percentage of frames repeated or lost, rounded down, as long as the product fits |
| `RateControl.RssiSteps` | source/source/src/kmods/RT61_Linux_STA_Drv1.1.2.1/mlme.c:1446-1480 | the rate for a signal is monotone in it, and every step lies where the table has it, with all rates and with new ones only |
| `RateControl.QuietSecond` | source/source/src/kmods/RT61_Linux_STA_Drv1.1.2.1/mlme.c:1435-1486 | with fifteen frames or fewer in a second the signal alone decides, up to the highest rate, and the history is cleared |
| `RateControl.MaxRate` | source/source/src/kmods/RT61_Linux_STA_Drv1.1.2.1/mlme.c:1812-1844 | the highest rate in the list |
| `RateControl.ExpectedAckRates` | source/source/src/kmods/RT61_Linux_STA_Drv1.1.2.1/mlme.c:1925-1933 | for every rate the highest basic rate not above it |
| `RateControl.Drs.UpdateTxRates` | source/source/src/kmods/RT61_Linux_STA_Drv1.1.2.1/mlme.c:1812-1978 | the first rate never exceeds the highest; where the highest is a new rate the first is one too, unless rates are switched, the link is up and the signal is below -75 dBm; acknowledgement rates are the highest basic ones |
| `RateControl.OneGoodSecond` | source/source/src/kmods/RT61_Linux_STA_Drv1.1.2.1/mlme.c:1515-1533 | one second without errors: the rate rises if it was the last to wait for, otherwise one fewer is to be waited for |
| `RateControl.OneBadSecond` | source/source/src/kmods/RT61_Linux_STA_Drv1.1.2.1/mlme.c:1515-1692 | one second with too many errors on a weak signal: the rate falls to the next one down, which starts clean, and the rate left gets the worst quality |
| `RateControl.RaisedThenTimer` | source/source/src/kmods/RT61_Linux_STA_Drv1.1.2.1/mlme.c:5904-5962 | when the timer of a raised rate ends, the rate goes down again if and only if there were too many errors by then |
| `RateControl.RisesAfter` | source/source/src/kmods/RT61_Linux_STA_Drv1.1.2.1/mlme.c:1515-1670 | after exactly as many good seconds as penalty and qualities call for, and no sooner, the rate rises to the next one up |
| `RateControl.FloorIff` | source/source/src/kmods/RT61_Linux_STA_Drv1.1.2.1/mlme.c:1616-1656 | the floor for the signal is above the present rate if and only if the signal is that strong for that rate |
| `RateControl.FloorSteps` | source/source/src/kmods/RT61_Linux_STA_Drv1.1.2.1/mlme.c:1616-1656 | the next rate down is left only for the highest rate whose signal is reached, and below -75 dBm not at all |
| `RateControl.NextRateLaws` | source/source/src/kmods/RT61_Linux_STA_Drv1.1.2.1/mlme.c:1535-1669 | the rate goes down only from the worst quality; up on noise, when noise has cleared, from a good rate with a good one above, or from a bad one if and only if the signal is too strong for it |
| `RateControl.BadGoesUp` | source/source/src/kmods/RT61_Linux_STA_Drv1.1.2.1/mlme.c:1616-1656 | a rate too bad to keep is raised from 6 to 48 Mbps when the signal is strong |
| `RateControl.Drs.JumpUpRate` | source/source/src/kmods/RT61_Linux_STA_Drv1.1.2.1/mlme.c:1574-1582 | the highest rate the signal is safe for |
| `RateControl.Drs.Tune` | source/source/src/kmods/RT61_Linux_STA_Drv1.1.2.1/mlme.c:1493-1671 | the next rate is the one decided, never above the highest, with all table indices in range |
| `RateControl.Drs.DynamicSwitch` | source/source/src/kmods/RT61_Linux_STA_Drv1.1.2.1/mlme.c:1386-1719 | the second of the run on the object's fields; a rate within the highest stays within it |
| `RateControl.Drs.QuickResponse` | source/source/src/kmods/RT61_Linux_STA_Drv1.1.2.1/mlme.c:5852-5962 | the timer's event of the run, possible only while it runs; the rate does not rise, unless only new rates are allowed and it was an old one |
| `RateControl.NextOkIff` | source/source/src/kmods/RT61_Linux_STA_Drv1.1.2.1/mlme.c:1386-1719 | every event keeps the rate within the highest, if and only if it is not the timer that finds a bad old rate where only new ones are allowed |
| `RateControl.WithinIff` | source/source/src/kmods/RT61_Linux_STA_Drv1.1.2.1/mlme.c:5852-5962 | from a state with the rate within the highest: all runs without an update keep it there, if and only if the timer is not pending with an old highest rate where only new ones are allowed |
| `RateControl.TimelyRuns` | source/source/src/kmods/RT61_Linux_STA_Drv1.1.2.1/mlme.c:1386-1719 | every run from the start in which no update to an old highest rate comes while the timer is pending keeps every rate within the highest |
| `RateControl.UntimelyOvershoots` | source/source/src/kmods/RT61_Linux_STA_Drv1.1.2.1/mlme.c:5852-5962 | after any such run, an update that does come then can be followed by a rate above the highest |
| `RateControl.Overshoot` | source/source/src/kmods/RT61_Linux_STA_Drv1.1.2.1/mlme.c:5852-5962 | a whole run of that kind: a raised rate starts the timer, an update lowers the highest rate to 11 Mbps, the timer puts the rate to 6 Mbps, which counts as higher |
| `RateControl.Drs.TestFrame` | source/source/src/kmods/RT61_Linux_STA_Drv1.1.2.1/rtmp_data.c:1078-1112 | no quality but that of the next rate up changes; that one never improves and never exceeds 3, and is 3 if and only if the frame was lost or the rate was not spotless before |
| `RateControl.TestsSpoil` | source/source/src/kmods/RT61_Linux_STA_Drv1.1.2.1/rtmp_data.c:1078-1112 | one lost test frame, or two repeated ones, give the next rate up the worst quality, and change no other |
| `RateControl.Run` | source/source/src/kmods/RT61_Linux_STA_Drv1.1.2.1/mlme.c:1386-1719 | the object follows the runs event by event; with timely updates every rate is at most the highest, and that at most 54 Mbps |
| `DmfeRx.RxRing.ReusedSkb` | source/source/src/kmods/DM9102/dmfe.c:1606-1618 | the buffer goes back into the ring and the error branch is not taken |
| `DmfeRx.RxRing.HandleFrame` | source/source/src/kmods/DM9102/dmfe.c:1204-1306 | the frame at the front is handled once, with its fate and the check mode that follow from it, and the window moves on by one; what those fates mean for what goes up is stated of whole runs below |
| `DmfeRx.RxRing.RxPacket` | source/source/src/kmods/DM9102/dmfe.c:1204-1306 | the loop ends although frames arrive while it runs, in finitely many bursts; every completed slot is handled in order, and no buffer is freed or lost |
| `DmfeRx.RxRing.CardStore` | source/source/src/kmods/DM9102/dmfe.c:1204-1306 | the card stores a frame exactly when it owns the next slot |
| `DmfeRx.RxRing.AllocatedRxBuffer` | source/source/src/kmods/DM9102/dmfe.c:1812-1832 | the ring is filled as far as buffers are granted |
| `DmfeRx.RxRing.FreeRxBuffer` | source/source/src/kmods/DM9102/dmfe.c:1589-1599 | every buffer of the window is freed, once, and nothing else |
| `DmfeRx.RxRing.Interrupt` | source/source/src/kmods/DM9102/dmfe.c:1072-1130 | frames waiting and arriving are handled or still wait, in order; on a receive interrupt none is left waiting |
| `DmfeRx.RxRing.DynamicReset` | source/source/src/kmods/DM9102/dmfe.c:1552-1582 | frames not yet handled are dropped, all buffers freed, nothing delivered changes |
| `DmfeRx.RingLaws` | source/source/src/kmods/DM9102/dmfe.c:1589-1681 | insert pointer is ready pointer plus available count modulo 32, the window holds distinct live buffers, slots outside are the host's, and buffers are conserved |
| `DmfeRx.DroppedOnlyByReset` | source/source/src/kmods/DM9102/dmfe.c:1204-1306 | in every run without a reset every frame taken is handled or still waits; none is dropped |
| `DmfeRx.DrainConserves` | source/source/src/kmods/DM9102/dmfe.c:1204-1306 | whatever arrives while the loop runs, it handles exactly the frames that waited and those taken meanwhile, in order |
| `DmfeRx.AllAccounted` | source/source/src/kmods/DM9102/dmfe.c:1072-1582 | in every run, resets included, all frames taken are, in order, handled, dropped by a reset or still waiting |
| `DmfeRx.MissedIff` | source/source/src/kmods/DM9102/dmfe.c:1204-1306 | in every run all frames that came are taken if and only if each found the frames waiting fewer than the buffers in the ring |
| `DmfeRx.NothingMissed` | source/source/src/kmods/DM9102/dmfe.c:1072-1130 | if at most 32 frames come between two fillings of the ring, also while interrupts are handled, and buffers are granted, no frame is missed: all that came are, in order, handled, dropped by a reset or waiting, and without a reset none is dropped |
| `DmfeRx.Run` | source/source/src/kmods/DM9102/dmfe.c:1204-1306 | the object follows the runs event by event: what it passes up is exactly what the handled frames call for, in order, and that is, told from the frames alone, as in the next row |
| `DmfeRx.ToldOfRuns` | source/source/src/kmods/DM9102/dmfe.c:1204-1306 | in every run: without resets, and if all frames taken are whole, free of errors and pass their checks, what went up are the frames handled, in order, each without its last four bytes; if all are in pieces or in error and no interrupt is promiscuous, nothing went up; in promiscuous mode, of whole frames in error that pass their checks, those of more than ten bytes |
| `DmfeRx.AllGoUp` | source/source/src/kmods/DM9102/dmfe.c:1072-1306 | with interrupts often enough, all sound frames that came have gone up, in order, after the last of them |
| `DmfeRx.DrainWatches` | source/source/src/kmods/DM9102/dmfe.c:1241-1252 | after a frame that fails the check of its data no frame goes up in the same interrupt that fails the check of its sequence |
| `DmfeRx.ModeOfRuns` | source/source/src/kmods/DM9102/dmfe.c:1120-1125 | the check mode stays as it was until a frame fails, and is 4 after the interrupt in which one did and from then on |
| `DmfeRx.StaysFull` | source/source/src/kmods/DM9102/dmfe.c:1254-1268 | with frames of fewer than 1572 bytes and no reset a filled ring stays full, whether or not memory can be had later |
| `DmfeTx.RingLaws` | source/source/src/kmods/DM9102/dmfe.c:953-1018 | insert pointer is remove pointer plus both counts modulo 16, at most one slot is the card's, queued frames imply one in flight, and sixteen unsent frames are a full ring whose first one the card still owns |
| `DmfeTx.PutLosesIff` | source/source/src/kmods/DM9102/dmfe.c:1749-1804 | a frame put into the ring is added behind all unsent ones, if and only if fewer than sixteen wait, which is when the ring is not full or full with its first frame already out, or the slot holds an equal frame; otherwise what that slot held is overwritten |
| `DmfeTx.NextOut` | source/source/src/kmods/DM9102/dmfe.c:953-1018 | the card has a frame to send exactly when one is in flight, and it is the oldest not yet sent |
| `DmfeTx.SetupWords` | source/source/src/kmods/DM9102/dmfe.c:1749-1804 | the words written are the listed addresses padded, and fill the setup frame exactly when the list is not too long |
| `DmfeTx.TxRing.StartXmit` | source/source/src/kmods/DM9102/dmfe.c:953-1018 | accepted, refused as busy or dropped as oversized, each exactly when; the queue will be woken again unless an oversized packet came with nothing in flight |
| `DmfeTx.TxRing.SendFilterFrame` | source/source/src/kmods/DM9102/dmfe.c:1749-1804 | the setup frame is last in line, whatever the ring holds; what it overwrites is exactly the unsent frame in the slot, if there is one |
| `DmfeTx.TxRing.CardSend` | source/source/src/kmods/DM9102/dmfe.c:1136-1197 | the oldest unsent frame goes out, exactly when one is in flight |
| `DmfeTx.TxRing.FreeTxPkt` | source/source/src/kmods/DM9102/dmfe.c:1136-1197 | a frame that is out is counted once and the next handed to the card; no frame is lost, and the queue is woken when there is room |
| `DmfeTx.TxRing.DynamicReset` | source/source/src/kmods/DM9102/dmfe.c:1552-1582 | frames not yet out are lost, one setup frame waits, the queue runs |
| `DmfeTx.NextGood` | source/source/src/kmods/DM9102/dmfe.c:953-1197 | every event keeps the ring good, and the network layer will be woken if and only if it is not stranded by an oversized packet on an idle ring |
| `DmfeTx.NextAccepted` | source/source/src/kmods/DM9102/dmfe.c:953-1197 | every event but a collision adds the frame it hands over, if that is taken, and keeps all others in order |
| `DmfeTx.NextFates` | source/source/src/kmods/DM9102/dmfe.c:953-1197 | a frame is gone for one of two reasons only: the card has sent it, or a reset has thrown it away |
| `DmfeTx.AllAccounted` | source/source/src/kmods/DM9102/dmfe.c:953-1197 | in every run without collisions, all frames taken are, in order, sent, lost to a reset or still waiting, and what is on the wire are those sent |
| `DmfeTx.Delivery` | source/source/src/kmods/DM9102/dmfe.c:953-1197 | without resets either, every frame taken goes out once, in order, or still waits |
| `DmfeTx.DrainsAll` | source/source/src/kmods/DM9102/dmfe.c:1136-1197 | from any good ring, one interrupt and then as many rounds of card and interrupt as frames wait send them all, in order |
| `DmfeTx.AllDelivered` | source/source/src/kmods/DM9102/dmfe.c:953-1197 | any run without resets and collisions, left alone at last: what was taken is what went out, once each and in order |
| `DmfeTx.WakesIff` | source/source/src/kmods/DM9102/dmfe.c:953-1018 | after any run the network layer waits in vain if and only if an oversized packet met an idle ring and nothing has been handed over since |
| `DmfeTx.HeldBack` | source/source/src/kmods/DM9102/dmfe.c:953-1197 | in every run: the network layer is held back only while thirteen frames or more wait, unless it offered an oversized packet; while it is not, fewer than fourteen wait and its packet is taken, unless setup frames came between |
| `DmfeTx.OversizedOnIdleRing` | source/source/src/kmods/DM9102/dmfe.c:953-1018 | an oversized packet on an idle ring leaves the queue stopped with nothing in flight |
| `DmfeTx.SecondSetupLoses` | source/source/src/kmods/DM9102/dmfe.c:1749-1804 | fifteen packets and two changes of the address filter before the card sends anything: the first packet is lost without a trace |
| `DmfeTx.Run` | source/source/src/kmods/DM9102/dmfe.c:953-1197 | the object follows the runs event by event: the frames on the wire, and which packets were taken |

## Left out

- Md5.Context.Update: where the copy runs past the block, that it does is all that is said; what it overwrites is not modelled. The same holds of `Sha1.Context.Update`.
- DmfeRx.RxRing.HandleFrame: the allocation of the small copy buffer is taken to succeed; where it fails, the source goes on with a null pointer.
- DmfeRx.NothingMissed: at most 32 frames come between two fillings, and buffers are granted; `DmfeRx.MissedIff` has the exact condition for every run. The card stores only finitely many frames while an interrupt is handled.
- SquashMetadata.StoreAndResolve: the metadata table is at most 4 GB, because the reader keeps block starts in 32 bits; records are not empty. `SquashDirectoryTable.WriteAndOpen` and `SquashFileTable.StoreAndExtract` report the same condition as a result.
- SquashDirectoryTable.WriteAndOpen: what is read behind the directories is a fragment table whose last block is not a whole one; with a multiple of 512 fragment blocks the reader runs into the junk that `SquashFragmentTable.WriteTable` describes.
- SquashFragmentTable.WriteAndRead: the index of block places is handed over; its own swap of 64-bit words is not modelled.
- SquashFile.Image.WriteFile: duplicate checking is off, and fewer than 2^32 fragments and 2^31 blocks are assumed.
- SquashInodes.Pack: in the machine's own byte order the compiler lays out the bit fields; they are taken to be filled from the least significant bit.
- CramfsImage.Mkcramfs: the entries come as a tree with fields already in range; the truncations and warnings of parse_directory, an inserted image that pushes the root beyond the offset limit, and structures of more than 4 GB are not covered.
- CramfsRoundTrip.Cramfsck: where pointers lead out of the image or backwards, the source reads what its buffer held before; where directories contain each other, it recurses until its stack is used up. Both end in the verdict that it was led astray, which says nothing of what the source then does.
- CramfsRecords.PatchIsUpdate: inodes are patched in the source's image in place; here offsets are kept in a map by entry number and the records are encoded with them, and this lemma connects the two.
- SquashDirectory.ItemRead: states the inode number difference as written; unsquashfs itself copies only as many bytes of an unswapped entry as a pointer has, and makes no use of the difference.
- RateControl.Run: MinTxRate, RtsRate and MlmeRate are not part of the model.
- MlmeHandler.Machine.Handler: the queue is unbounded here; `MlmeQueue` states when an enqueue is refused and when a slot is reused while its message is handled. It is stated from states that runs with interventions at rest reach; of those, `MlmeHandler.EmptiesIff` says exactly from which the loop ends.
- Mlme.CleanRuns: interventions that find CNTL busy are not covered, because then two things are under way; `Mlme.LinkUpSafety` and `MlmeInterventions.AuthenticatedIff` state what holds of them.
- MlmeInterventions.AuthenticatedIff: times are not modelled, a timeout may come at any moment or not at all; that the runs of `InterventionMisleads` fit into the 300 ms of AUTH's timer is not proved.
- SquashTree.MakeAndExtract: every entry has an inode and an inode number of its own, as there are no hard links, devices, symbolic links or duplicate files; path names, for which dir_scan has 1024 bytes, are not put together; the places of the tables and the root's reference are handed over as in the super block. A directory that the writer refuses ends it in the source; here the image is made and not used.
- SYNC, ASSOC, WPA and the response side of authentication: taken as an environment that answers each request once.
- CNTL_WAIT_REASSOC, which is never entered.
- dm9132_id_table, statistics, LED, PHY, EEPROM and register access in both drivers.
- Duplicate detection, hard links, append and restore paths, sorting and the uid tables of mksquashfs; the rest of the super block handling of unsquashfs.
- The values of the MD5 constants as a sine table: the table is taken as it is, and tied to the RFC by its example.
- PasswordHash, HMAC-SHA1, RC4 and TKIP.
- Big-endian hosts, except for the byte order that squashfs images may have.
- zlib itself, files, signals, options and messages of the tools.
