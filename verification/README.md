# Model of a FAT12 driver, a kernel heap and an integer printf

This project models three parts of a small operating system kernel and proves what
they keep and compute. `dafny verify dfyconfig.toml` checks the whole project
(Dafny 4.11).

**The FAT12 file system** (`kernel/fat12.c`) is a driver over an array of 512-byte
sectors. The model is layered, and each layer refines the next:

| module | what it is about |
|---|---|
| `Disk` | sectors, geometry, packed 12-bit FAT cells, mirrored FATs |
| `Chains` | cluster chains in the table; taking and freeing clusters |
| `Objects` | objects (root, directories, files): their chains and sectors, no cluster shared |
| `Directory` | 32-byte entries; live, visible and ordinary slots; the end marker and tombstones |
| `Names`, `Paths` | 8.3 names and path components |
| `Tree` | which entry names which object, and what keeps the tree well formed |
| `Store` | slots, file contents and addresses of stored objects |
| `Lookup` | path lookup as a fold of directory scans |
| `Fat12` | the driver: class `Volume` with the drive, the handles and every operation |
| `Namespace` | what each change of the tree does to every path |
| `View` | what a client sees: a set of directory paths and a map from file paths to bytes |
| `Session` | every call as a step on the view, the round trip through the drive |
| `Listings` | what a listing shows: the children of a directory in the view |
| `Client` | the file system without sectors and slots, and every run of the driver as a run of it |
| `Image` | a second reading of the sectors, by positions and bits only, and the proof that clients see what it finds |
| `Records` | the directory records that operations write, byte by byte |
| `Spelling` | which texts the driver takes for the same name, in plain bytes |
| `Witnesses` | the first volume, and runs in which a promise is broken |

`Volume` keeps the real fields `disk` and `files` (the handles) and three ghost
fields: `o`, the objects that the drive holds, `ds`, which of them are directories, and
`home`, the entry that names each object. `Valid()` says that all FAT copies agree, that
the table and the sectors hold exactly `o` (chains are acyclic and end, no cluster is on
two chains, every cluster is free, lost or owned), and that the tree is well formed
(every object is named by exactly one entry of the right kind, sizes fit the clusters,
names are unique in each directory, ".." leads back). Every operation keeps `Valid()`
and states its result code in every case. `Session.Clean` adds what whole runs need:
every handle agrees with its entry, no two handles share one, and every directory can be
reached. `Client.Run` is the main result: directory paths, the bytes of each file, and path
and cursor of each open file account for every result of every disciplined run, read data
and listings included, and no cluster leaks. `Image.SeenOnDrive` says what the view is: the
paths and bytes that lie on the drive, found without the driver's definitions. Where the driver has reasons that a client cannot see (no
room for an entry, entries in a directory, the spelling a handle keeps, no free cluster),
they are read from its state at that moment.

**The kernel heap** (`kernel/LineMemory.c`) is a first-fit allocator with headers in
memory. `HeapState` has the blocks in address order, the free list, and the laws about
giving blocks out and back; `Heap` has the memory as an array of 16-byte rows and the
methods that read and write headers in it.

**Formatting** (`third-party/printf.c`) is limited to integers, characters, strings and
pointers. `Format` has the text of an integer, `Directives` reads a format string, and
`Printf` has the loops over the bounded buffer. `CStandard` is section 7.19.6.1 of C99 on
its own terms, without a parser and without the source's definitions; `Agreement` says when
the source prints what it says, and `Differences` has format strings with which it does not.
`Machine` names the 32-bit word; `Options` and `Sequences` are shared helpers.

Three promises do not hold of the code in full; the condition under which each holds is
proved in both directions, and a concrete input shows it broken:

- A rename makes the new path name the entry, and loses no directory, exactly when it
  does not move a directory to a path that extends its own (`Namespace.RenameArrives`,
  `Namespace.MovedRooted`, `Session.RenameEffect`; `Witnesses.LostDirectory`).
- An open file is protected from removal exactly when it has clusters, or the path given
  equals, byte for byte, the path that some handle in use without clusters keeps. A handle
  keeps the first 255 bytes of the path it was opened with, so a longer path protects
  nothing, and a handle on another empty file can protect this one
  (`Session.RemoveOpenFile`; `Witnesses.LostFile`).
- Integer conversions print the text of C99 exactly when: with the flag `-` the precision
  asks for no zeros; with zeros for the width, the field fits into the 32-byte buffer;
  otherwise sign and precision fit into it, or the sign that does not fit is a blank that
  looks like padding (`Format.FollowsStandard`, `Format.SignLost`;
  `Differences.ForgottenZeros`, `Differences.ForgottenSign`). With `#`, digits give way to the
  prefix when they are as wide as the field, an octal prefix comes on top of the zeros for
  the precision, and there must be room for the prefix (`Format.HashStandard`;
  `Differences.ForgottenDigits`). A negative `*` precision, which
  C99 takes as no precision, is read as precision 0 (`Agreement.ReadsStandard`): then an
  integer agrees exactly when it is not 0 and the flag `0` has no zeros to add, and a string
  exactly when the characters that are left out are blanks that the width asks for anyway
  (`Agreement.IntegerStandard`, `Agreement.StringStandard`; `Differences.HiddenZero`,
  `Differences.HiddenText`). Widths and precisions from 2 to the 32 on are reduced, and an
  integer then never agrees.

Three smaller ones: a new name that starts with byte 0xE5 is lost
(`Directory.CreatedLive`), a name on the drive with a NUL inside is shown only up to it and
cannot be spelled (`Names.KeyRoundTrip`), and freeing merges blocks to the right only
(`HeapState.ReturnCoalesced`).

## Model

| member | source | states |
|---|---|---|
| `Disk.Layout` | kernel/fat12.c:84-90 | the FATs, the root directory and the data clusters lie where the driver computes them; the root directory has the least number of sectors that holds its entries |
| `Disk.BootFieldsRead` | kernel/fat12.c:77-90 | from a boot sector that has the fields of `struct fat12_bpb` one behind the other, low bytes first, the driver takes exactly these values |
| `Disk.DataSectorInjective` | kernel/fat12.c:230-238 | two different (cluster, sector) pairs never share a sector of the drive |
| `Disk.CellStore` | kernel/fat12.c:141-172 | packed FAT access is an exact array of 12-bit cells: after cell c is written, c reads as the value mod 4096 and every other cell as before, for both parities |
| `Disk.StoreFatSectorMirror` | kernel/fat12.c:132-138 | a FAT sector written to every copy is the same in all copies; the other sectors are as much alike as before |
| `Disk.StoreFatSectorArea` | kernel/fat12.c:132-138 | writing a FAT sector to all copies leaves the root directory and the data area alone |
| `Disk.AreaWrite` | kernel/fat12.c:703-704 | a write behind the FATs changes no sector in front of it, so no FAT copy and no cell, and mirrored copies stay mirrored |
| `Chains.ChainDistinct` | kernel/fat12.c:188-198 | a chain that reaches an end mark visits no cluster twice |
| `Chains.ChainUnique` | kernel/fat12.c:188-198 | the table determines the chain that starts at a cluster |
| `Chains.FreeChain` | kernel/fat12.c:188-198 | on a well-ended chain, freeing zeroes exactly the cells of the chain |
| `Chains.FreeOnlyClears` | kernel/fat12.c:188-198 | on any table, also a cyclic or cross-linked one, freeing only clears cells, and clears the first one |
| `Chains.FreeSteps` | kernel/fat12.c:188-199 | on every table, freeing clears a cell and goes on with its value as long as that is 2 to 0xFF7 |
| `Objects.ListsDisjoint` | kernel/fat12.c:230-244 | different positions of the stored objects live on different sectors of the drive |
| `Objects.WriteRep` | kernel/fat12.c:297-313 | rewriting one sector of one object changes that object only and keeps the representation |
| `Objects.NewRep` | kernel/fat12.c:174-186 | a cluster taken for a new object: no cluster is on two chains, every cluster is free, lost or on exactly one chain |
| `Objects.ExtendRep` | kernel/fat12.c:174-186 | the same when a cluster is linked behind a chain |
| `Objects.FreeRep` | kernel/fat12.c:188-198 | the same when an object gives its chain back |
| `Directory.SlotWrite` | kernel/fat12.c:306-313 | writing 32 bytes back into their sector changes exactly one slot |
| `Directory.CreateInserts` | kernel/fat12.c:522-579 | an entry written over a tombstone, or behind a full directory that was extended, adds exactly one live slot and keeps all others |
| `Directory.CreateAtMarker` | kernel/fat12.c:565-573 | the same when the end marker is overwritten and moves on |
| `Directory.CreatedLive` | kernel/fat12.c:535-573 | a new entry is live exactly when its name does not start with byte 0xE5 |
| `Directory.UpdateLive` | kernel/fat12.c:905-909 | rewriting one live slot changes the liveness of no other; it dies exactly when it becomes a tombstone |
| `Directory.EntryBytes` | kernel/fat12.h:42-55 | a new entry as `struct fat12_dir_entry` has it, byte by byte |
| `Names.KeyRoundTrip` | kernel/fat12.c:1024-1048 | disk form to text (as a C string) and back is the identity exactly on names without lower-case letters, without a NUL and without a dot in the first part |
| `Names.TextRoundTrip` | kernel/fat12.c:316-352 | text to disk form and back gives the text in upper case exactly on 8.3 texts |
| `Names.CaseInsensitive` | kernel/fat12.c:316-365 | names equal up to ASCII case have the same disk form |
| `Names.KeyStart` | kernel/fat12.c:316-352 | a converted component never looks like "." or ".." and never starts with the end marker |
| `Names.ToFat12Name` | kernel/fat12.c:316-352 | the loops compute the padded upper-case name |
| `Names.FromFat12Name` | kernel/fat12.c:1024-1048 | the loops store the trimmed bytes of both parts; a NUL inside them ends the C string early (`Names.Shown`) |
| `Spelling.SameName` | kernel/fat12.c:316-352 | two texts in 8.3 form stand for the same name exactly when they have equal length and at each place equal bytes or the two forms of an ASCII letter |
| `Spelling.ShownAgain` | kernel/fat12.c:1024-1048 | a text in 8.3 form without the bytes 0x61 to 0x7A is shown again as it was |
| `Spelling.StoredBytes` | kernel/fat12.c:316-352 | what any text is stored as, byte by byte: 8 bytes before the first dot, 3 behind it, letters as capitals, blanks elsewhere |
| `Spelling.PathNames` | kernel/fat12.c:367-385 | the names that a path is looked up by are those of its texts between slashes, in order |
| `Paths.NextComponent` | kernel/fat12.c:367-385 | the next non-empty slash-free run, cut to 255 bytes, and the offset behind it |
| `Paths.ComponentsOk` | kernel/fat12.c:367-385 | components are non-empty, slash-free and at most 255 bytes long |
| `Paths.SplitRoute` | kernel/fat12.c:367-385 | every path, with any number of slashes between, in front and at the end, is split into its non-empty texts without slashes, each cut to 255 bytes |
| `Tree.CreateFileWF` | kernel/fat12.c:522-579 | creating an empty file keeps the tree well formed |
| `Tree.MakeDirWF` | kernel/fat12.c:827-858 | so does creating a directory: its entry names it, "." and ".." are right |
| `Tree.RemoveFileWF` | kernel/fat12.c:914-944 | so does removing a file |
| `Tree.RemoveDirWF` | kernel/fat12.c:886-912 | so does removing an empty directory |
| `Tree.RenameWF` | kernel/fat12.c:746-794 | so does renaming: the object moves to the new entry, and ".." of a moved directory names the new parent |
| `Tree.RenamedEntries` | kernel/fat12.c:746-794 | after a rename exactly the old entry is gone and exactly its copy is new |
| `Tree.RemovedKeeps` | kernel/fat12.c:905-909 | after a removal exactly the one entry is gone |
| `Tree.FirstClusterKeepsWF` | kernel/fat12.c:664-680 | giving an empty file its first cluster keeps the tree well formed |
| `Tree.SizeKeepsWF` | kernel/fat12.c:730-740 | so does a new size that the clusters can hold |
| `Store.PrefixPatch` | kernel/fat12.c:714-722 | patching bytes inside one sector splices them into the contents of the file |
| `Store.SpliceBytes` | kernel/fat12.c:644-744 | a splice has the new bytes at their positions, the old ones elsewhere, and the greater of both lengths |
| `Store.ByteAddress` | kernel/fat12.c:656-703 | cluster number, sector and offset that the driver computes for a byte are the right ones |
| `Store.SlotAddress` | kernel/fat12.c:216-238 | the same for a slot of a directory |
| `Store.SizeFits` | kernel/fat12.c:730-732 | no file reaches the size that its 32-bit field cannot hold |
| `Lookup.ScanFinds` | kernel/fat12.c:398-424 | the scan finds the one visible slot with the name |
| `Lookup.ScanFails` | kernel/fat12.c:398-424 | the scan fails exactly when no visible slot has the name |
| `Lookup.WalkInside` | kernel/fat12.c:387-455 | in a well-formed tree a walk never leaves the directories |
| `Lookup.ResolveAt` | kernel/fat12.c:387-520 | whenever a path names an entry its parent can be walked to, and the entry has the name of the last component |
| `Lookup.WalkStops` | kernel/fat12.c:426-455 | where the loop gives up, the path names nothing |
| `Fat12.Volume.constructor` | kernel/fat12.c:28-106 | mounting a boot sector with given fields gives exactly these values; a mountable drive gives a valid volume with 256 unused handles |
| `Fat12.Volume.ReadFatBytes` | kernel/fat12.c:108-119 | the two bytes of a cell, also across a sector boundary |
| `Fat12.Volume.WriteFatByte` | kernel/fat12.c:121-139 | one byte of the table changes, in every copy; the area behind the FATs does not |
| `Fat12.Volume.ReadFatEntry` | kernel/fat12.c:141-154 | the value of the cell |
| `Fat12.Volume.WriteFatEntry` | kernel/fat12.c:156-172 | exactly this cell changes, and mirrored FATs stay mirrored |
| `Fat12.Volume.AllocateCluster` | kernel/fat12.c:174-186 | the first cluster from 2 to 4079 whose cell is 0 is taken (its cell becomes 0xFFF) and linked; -1 exactly when there is none, with nothing changed |
| `Fat12.Volume.FreeClusterChain` | kernel/fat12.c:188-198 | ends on every table and computes the specified table |
| `Fat12.Volume.ReadDirEntry` | kernel/fat12.c:200-245 | the bytes of the slot; fails exactly past the last slot |
| `Fat12.Volume.WriteDirEntry` | kernel/fat12.c:247-314 | the slot is written, after the directory was extended by zeroed clusters where needed; fails only in a full root or without a free cluster |
| `Fat12.Volume.ScanDirectory` | kernel/fat12.c:398-424 | the loop computes the scan |
| `Fat12.Volume.FindEntry` | kernel/fat12.c:387-455 | an entry is found exactly when the fold over the components finds it, and it is that entry |
| `Fat12.Volume.ResolveParent` | kernel/fat12.c:457-520 | the parent is found exactly when the walk along all but the last component succeeds |
| `Fat12.Volume.CreateEntry` | kernel/fat12.c:522-579 | exactly one live entry is added, in the first reusable slot; fails exactly in a full root or a full directory without a free cluster, with nothing changed |
| `Fat12.Volume.CreateFile` | kernel/fat12.c:522-579 | the same for an empty file in a well-formed tree |
| `Fat12.Volume.LocateOrCreate` | kernel/fat12.c:594-616 | an existing file is found, a missing one is created |
| `Fat12.Volume.Open` | kernel/fat12.c:581-631 | succeeds exactly when a handle is unused and the path can be opened; the handle agrees with the entry; handles stay good |
| `Fat12.Volume.Close` | kernel/fat12.c:633-642 | the handle becomes unused |
| `Fat12.Volume.GetSize` | kernel/fat12.c:1128-1136 | through a handle that agrees with the drive, the length of the file and the size in its directory entry; 0 for a bad handle |
| `Fat12.Volume.SeekCluster` | kernel/fat12.c:973-987 | the walk to a cluster of a file |
| `Fat12.Volume.ReadChunk` | kernel/fat12.c:956-1018 | the bytes from the cursor to the end of its sector, of the file or of the request |
| `Fat12.Volume.Read` | kernel/fat12.c:946-1022 | the bytes of the file from the cursor on, as many as asked for or as there are; the cursor moves over them |
| `Fat12.Volume.EnsureFirst` | kernel/fat12.c:660-680 | an empty file gets a first cluster in the handle and in the entry |
| `Fat12.Volume.WalkOrExtendFile` | kernel/fat12.c:682-698 | the walk for a write extends the file by one cluster where needed |
| `Fat12.Volume.StoreChunk` | kernel/fat12.c:700-726 | one sector of the file is patched |
| `Fat12.Volume.AdvanceCursor` | kernel/fat12.c:728-741 | cursor and, if the file became longer, the sizes in handle and entry move |
| `Fat12.Volume.WriteChunk` | kernel/fat12.c:655-742 | one round splices its bytes into the file |
| `Fat12.Volume.Write` | kernel/fat12.c:644-744 | the file becomes old[..cursor] + buf[..r] + the rest, size and cursor follow in handle and entry, no other file and no directory changes; falls short only when no cluster is free, and then the file fills its last cluster or has none |
| `Fat12.Volume.FreeObject` | kernel/fat12.c:188-198 | exactly the cells of the chain become 0 |
| `Fat12.Volume.InUse` | kernel/fat12.c:925-931 | the test for open handles |
| `Fat12.Volume.Erase` | kernel/fat12.c:933-943 | exactly the clusters of the object become free and exactly its entry disappears |
| `Fat12.Volume.RemoveFile` | kernel/fat12.c:914-944 | the result code in every case; on success exactly the entry and its clusters are gone; failures change nothing |
| `Fat12.Volume.IsDirEmpty` | kernel/fat12.c:860-884 | a directory is empty exactly when it has no entries but "." and "..", long names not counted |
| `Fat12.Volume.RemoveDir` | kernel/fat12.c:886-912 | the result code in every case; succeeds only on an empty directory; failures change nothing |
| `Fat12.Volume.InitDirCluster` | kernel/fat12.c:796-825 | the new directory holds ".", ".." and an end marker |
| `Fat12.Volume.BuildDir` | kernel/fat12.c:840-857 | rollback: when the entry cannot be added, every FAT entry and every object is as before |
| `Fat12.Volume.MakeDir` | kernel/fat12.c:827-858 | the result code in every case; failures leave every FAT entry and every object as before |
| `Fat12.Volume.RedirectDotDot` | kernel/fat12.c:773-780 | ".." of the moved directory names the new parent |
| `Fat12.Volume.MoveEntry` | kernel/fat12.c:765-783 | the entry is copied and the old one buried |
| `Fat12.Volume.RepathHandles` | kernel/fat12.c:785-791 | the paths of the handles that are spelled like the old path follow |
| `Fat12.Volume.Rename` | kernel/fat12.c:746-794 | the result code in every case; on success the entry moves and everything else stays; the handles that stay good are exactly those on other entries |
| `Fat12.Volume.ListDirectory` | kernel/fat12.c:1088-1116 | the ordinary entries in slot order, at most `count` |
| `Fat12.Volume.ListContent` | kernel/fat12.c:1053-1126 | a directory lists its entries, a file itself |
| `Fat12.BlankDrive` | kernel/fat12.c:28-106 | a drive of zeroed sectors holds an empty volume, so valid volumes exist |
| `Fat12.ListingEmpty` | kernel/fat12.c:860-884 | a directory lists as empty exactly when it has no ordinary entry |
| `Fat12.MakeDirDone` | kernel/fat12.c:827-858 | the state after a successful makedir |
| `Fat12.ProgressTwice` | kernel/fat12.c:655-742 | rounds of the write loop add up to one splice |
| `Fat12.MovedHandles` | kernel/fat12.c:746-794 | a rename keeps the handles on other entries and breaks those on the renamed one |
| `Namespace.WalkUnique` | kernel/fat12.c:387-455 | a directory is reached by at most one path |
| `Namespace.OneName` | kernel/fat12.c:387-455 | two paths that name the same slot are the same path |
| `Namespace.OnePath` | kernel/fat12.c:387-455 | when every directory can be reached, every entry whose name a path can spell has exactly one path |
| `Namespace.AddedPaths` | kernel/fat12.c:581-631 | after an entry was added its path names it, and every other path names what it named |
| `Namespace.DroppedPaths` | kernel/fat12.c:886-944 | after an entry was removed its path names nothing, and every other path names what it named |
| `Namespace.MovedPaths` | kernel/fat12.c:746-794 | after a rename every path at or below the new one names what the corresponding old path named; the old path and everything below it names nothing; no other path changes |
| `Namespace.MovedPlaces` | kernel/fat12.c:746-794 | after a rename that moves no directory below itself, everything is in the slot where it was and is named by the path that follows the move; the new path names the new slot |
| `Namespace.RenameArrives` | kernel/fat12.c:746-794 | the new path names the entry exactly when no directory was moved below itself |
| `Namespace.MovedRooted` | kernel/fat12.c:746-794 | a rename keeps every directory within reach exactly when it moves no directory to a path that extends its own |
| `Namespace.ChangedPaths` | kernel/fat12.c:644-744 | a write changes no path |
| `Namespace.AddedRooted` | kernel/fat12.c:827-858 | creating keeps every directory within reach |
| `Namespace.DroppedRooted` | kernel/fat12.c:886-912 | so does removing |
| `View.ViewNames` | kernel/fat12.c:387-455 | a path names something exactly when it is a directory or a file of the view, and never both |
| `View.MovedView` | kernel/fat12.c:746-794 | the view after a move is the old one shifted from the old path to the new one |
| `Session.OpenEffect` | kernel/fat12.c:581-631 | open refines: the view gets an empty file at a fresh path and is the same otherwise |
| `Session.WriteEffect` | kernel/fat12.c:644-744 | write refines: the bytes are spliced into one file of the view |
| `Session.WriteKeepsListings` | kernel/fat12.c:644-744 | a write changes no directory listing |
| `Session.NewDirListing` | kernel/fat12.c:796-825 | the new directory lists as empty |
| `Session.MakeDirEffect` | kernel/fat12.c:827-858 | makedir refines: one directory is added to the view |
| `Session.EraseEffect` | kernel/fat12.c:886-944 | removefile and removedir refine: one path leaves the view |
| `Session.RenameEffect` | kernel/fat12.c:746-794 | rename refines: everything at or below the old path moves; directories get lost exactly when one is moved below itself |
| `Session.ViewCodes` | kernel/fat12.c:387-520 | the first checks of the driver, in terms of the view |
| `Session.OpenCodes` | kernel/fat12.c:581-616 | how open decides: a parent directory, not a directory itself, and a file or room for a new entry |
| `Session.Accountable` | kernel/fat12.c:174-198 | on a valid volume every cell from 2 to 4079 that is not 0 is on the chain of exactly one object, which an entry names, unless its cluster is lost |
| `Session.RemoveOpenFile` | kernel/fat12.c:925-931 | an open file is refused exactly when it has clusters or the path equals what some handle without clusters keeps in its 255-byte path buffer |
| `Session.ShieldedOnly` | kernel/fat12.c:925-931 | for a file that is not open, the test of removefile comes down to the spelling that another handle without clusters keeps |
| `Session.OtherSpelling` | kernel/fat12.c:367-385 | a path with a slash in front is another spelling of the same path; `Witnesses.RemoveWhileOpen` uses it to remove an open file |
| `Session.StepOpen` | kernel/fat12.c:581-631 | open keeps the volume clean, loses no cluster, has its effect on the view, changes no other path, and takes the first unused handle; the result code in every case, and a fresh path is refused exactly when its directory has no room for an entry |
| `Session.StepWrite` | kernel/fat12.c:644-744 | so does write; all other handles stay good, every path names the same slot as before; it falls short only when no cluster is free and the file fills its last one or has none |
| `Session.RewroteAt` | kernel/fat12.c:644-744 | a write changes the bytes at one path of the view and at no other |
| `Session.StepRead` | kernel/fat12.c:946-1022 | read changes neither the volume nor the view; the bytes are those of the file in the view, from the cursor on, as many as asked for or as there are |
| `Session.HandleSeen` | kernel/fat12.c:946-1022 | a path that names the entry of a good handle holds in the view exactly the bytes behind the handle |
| `Session.StepSize` | kernel/fat12.c:1128-1136 | the length of the file in the view |
| `Session.StepClose` | kernel/fat12.c:633-642 | close frees the handle and changes nothing else |
| `Session.StepMakeDir` | kernel/fat12.c:827-858 | makedir keeps the volume clean and loses no cluster; -9 exactly when the parent is not a directory of the view, -1 exactly for an existing path or without room; the new path leads to a directory that holds "." and ".." only |
| `Session.StepRemoveDir` | kernel/fat12.c:886-912 | removedir keeps the volume clean and loses no cluster; -9 exactly when the path is no directory of the view or the root, -11 exactly when the directory has an ordinary entry; on success nothing was below the path, and no other path changes |
| `Session.EntriesBelow` | kernel/fat12.c:860-912 | where a path can spell all names of a directory, it has an ordinary entry exactly when the view has something below it |
| `Session.StepRemoveFile` | kernel/fat12.c:914-944 | removefile keeps the volume clean and loses no cluster; -9 exactly when the path is not a file of the view; a file that is not open is refused exactly when it has no clusters and a handle in use without clusters keeps this spelling; no other path changes |
| `Session.StepRename` | kernel/fat12.c:746-794 | rename keeps the volume clean, loses no cluster and shifts the view; what any other path named is named by the path that follows the move; the result code in every case, -1 for a free path exactly when its directory has no room |
| `Session.RoundTrip` | kernel/fat12.c:581-1022 | a fresh file written in chunks of any number and length, closed, opened again and read gives exactly what was written, and then nothing; only a full drive or a path that cannot be opened stops it |
| `Listings.ListsChildren` | kernel/fat12.c:1053-1126 | in a well-formed tree the items of a directory are its children in the view, each once, with the name it is shown by and as a directory or a file; a name that no path can spell is the only one that is not in the view |
| `Listings.ListedInOrder` | kernel/fat12.c:1053-1126 | the items are the ordinary entries in slot order, each once and none left out |
| `Listings.StepList` | kernel/fat12.c:1053-1126 | the empty path, "/" and "/." list the first children of the root; every other path lists the first of its children, the file itself, or returns -9 if the view has nothing there |
| `Image.CellBit` | kernel/fat12.c:141-172 | bit i of cell c of the driver's table is bit 12c + i of the bytes of the first FAT on the drive |
| `Image.ChainOnly` | kernel/fat12.c:188-199 | the chain of an object is the only run of linked cells from its first cluster to an end mark |
| `Image.DirsOnDrive` | kernel/fat12.c:387-455 | a path leads to a directory exactly when records in use on the drive, with the names of the path and the directory bit, lead there from the root directory |
| `Image.FilesOnDrive` | kernel/fat12.c:387-455 | a path is a file with certain bytes exactly when such records lead to one without the directory bit whose chain holds these bytes, as many as its size says |
| `Image.SeenOnDrive` | kernel/fat12.c:28-1136 | the view of a client is what lies on the drive: both statements together, for every volume that the operations keep valid |
| `Image.FatCopies` | kernel/fat12.c:121-139 | every FAT is a copy of the first one |
| `Image.NoRoomOnDrive` | kernel/fat12.c:522-579 | there is no room for an entry exactly when every record of the directory is in use and it is the root directory or no cell from 2 to 4079 is 0 |
| `Image.NoDirRoomOnDrive` | kernel/fat12.c:827-858 | there is no room for a directory exactly when no cell is 0, or all records of the parent are in use and it is the root directory or just one cell is 0 |
| `Image.StoppedOnDrive` | kernel/fat12.c:644-744 | a write stops exactly in a state in which no cell is 0 and the file has no cluster or the cursor stands at the end of its chain |
| `Image.EntriesOnDrive` | kernel/fat12.c:860-884 | a directory has entries exactly when one of its records is in use that is neither "." nor ".." |
| `Image.DotRecords` | kernel/fat12.c:796-825 | the first records of a new directory, byte by byte |
| `Records.OpenedRecord` | kernel/fat12.c:522-631 | a file created by opening has a record with its name and zeros |
| `Records.MadeRecord` | kernel/fat12.c:827-858 | a new directory has a record with its name, attribute 0x10 and its cluster |
| `Records.MovedRecords` | kernel/fat12.c:746-794 | a renamed entry is copied with attributes, cluster and size and without times, and its old record starts with 0xE5 |
| `Client.HeldOpened` | kernel/fat12.c:581-631 | a path is that of an open file of the client exactly when some handle of the driver is on the entry that it names |
| `Client.HandleFacts` | kernel/fat12.c:581-1022 | path, cursor and bytes of an open file of the client are those of the handle |
| `Client.HandlesFollow` | kernel/fat12.c:746-794 | after a rename the open files below a moved directory are open at the paths that follow it |
| `Client.WriteShown` | kernel/fat12.c:644-744 | a write through one handle is the splice at its path in the client's file system |
| `Client.Perform` | kernel/fat12.c:581-1136 | every allowed call returns exactly what the client's file system says, where the driver's own reasons to refuse it (no room, entries in a directory, a kept spelling, no free cluster for a write) are told from its state; it has the effect that it says there, keeps the volume clean and loses no cluster |
| `Client.Check` | kernel/fat12.c:387-455 | a client can tell before a call whether the discipline allows it |
| `Client.Run` | kernel/fat12.c:581-1136 | every run of disciplined calls of any length is a run of the client's file system (paths, bytes, cursors) with the same results, read data and listings included; a call is refused exactly when the client's file system or the state of the driver at that moment says so, and a write falls short only when the state after it says so; the volume stays clean and no cluster is lost, so every cell that an operation allocated is on exactly one chain |
| `Client.RunKeepsFile` | kernel/fat12.c:581-1136 | over any run, a file that no call writes, removes or moves keeps its path and its bytes |
| `Witnesses.Mount` | kernel/fat12.c:28-106 | a freshly mounted blank drive is clean and shows an empty root directory, so runs have a start |
| `Witnesses.RenameBelowItself` | kernel/fat12.c:746-794 | a rename of a directory to a free path below itself returns 0; then old and new path name nothing and some directory cannot be reached |
| `Witnesses.LostDirectory` | kernel/fat12.c:746-858 | a concrete drive and two calls, makedir("A") and rename("A", "A/A"): both return 0 and the directory is lost |
| `Witnesses.RemoveWhileOpen` | kernel/fat12.c:914-944 | a new file that is still open is removed with result 0 under the spelling with a slash in front; its handle is in use and stale |
| `Witnesses.LostFile` | kernel/fat12.c:581-944 | a concrete drive and two calls, open("A") and removefile("/A"): both succeed |
| `HeapState.NeedFits` | kernel/LineMemory.c:73-73 | the block that is asked for holds header and payload exactly when the 32-bit sum does not wrap |
| `HeapState.CarveOk` | kernel/LineMemory.c:68-99 | giving a block out keeps the tiling, and the free list lists exactly the free blocks |
| `HeapState.ReturnOk` | kernel/LineMemory.c:101-128 | so does giving a block back |
| `HeapState.FreedThenMerged` | kernel/LineMemory.c:116-128 | freeing is marking followed by merging |
| `HeapState.AllocateThenFree` | kernel/LineMemory.c:68-128 | kmalloc then kfree restores the blocks exactly when the block was split or its right neighbour is in use; otherwise it merges the two; the block moves to the head of the list |
| `HeapState.Conserved` | kernel/LineMemory.c:26-41 | free and used bytes add up to the size of the heap |
| `HeapState.CarveBytes` | kernel/LineMemory.c:68-99 | an allocation moves exactly the bytes of its block from free to used |
| `HeapState.ReturnBytes` | kernel/LineMemory.c:101-128 | a free moves exactly the bytes of its block from used to free |
| `HeapState.CarveCoalesced` | kernel/LineMemory.c:68-99 | an allocation makes no free neighbours |
| `HeapState.ReturnCoalesced` | kernel/LineMemory.c:101-128 | a free makes free neighbours exactly when the block to the left is free |
| `HeapState.FreeNeighboursRemain` | kernel/LineMemory.c:101-114 | a concrete heap in which free neighbours remain |
| `HeapState.PayloadsApart` | kernel/LineMemory.c:68-99 | blocks do not overlap and lie in the heap; payloads start at multiples of 16 |
| `HeapState.ClaimsApart` | kernel/LineMemory.c:68-99 | two allocations that live at the same time do not overlap |
| `HeapState.CarveKeepsClaims` | kernel/LineMemory.c:68-99 | an allocation takes nothing away from other holders |
| `HeapState.ReturnKeepsClaims` | kernel/LineMemory.c:116-128 | so does freeing another block |
| `HeapState.NoneFits` | kernel/LineMemory.c:68-99 | if every listed block is too small, every free block is |
| `HeapState.CarveRule` | kernel/LineMemory.c:73-98 | what an allocation does to blocks and list, in numbers |
| `HeapState.ReturnRule` | kernel/LineMemory.c:100-128 | what a free does to blocks and list, in numbers |
| `HeapState.LittleWaste` | kernel/LineMemory.c:73-98 | a block that is given out has fewer than 63 bytes more than were asked for |
| `Heap.UnlinkedList` | kernel/LineMemory.c:43-55 | taking an entry out leaves a well-linked list of the others, forwards and backwards |
| `Heap.PushedList` | kernel/LineMemory.c:57-66 | putting a block in front gives a well-linked list |
| `Heap.ClientKeepsRep` | kernel/LineMemory.c:68-99 | writes of clients inside payloads do not disturb the allocator |
| `Heap.KernelHeap.constructor` | kernel/LineMemory.c:26-41 | one free block from the aligned start to the end, or no block |
| `Heap.KernelHeap.HeadersInMemory` | kernel/LineMemory.c:43-66 | size and flag in the header of each block, and the links of the free list, as they lie in memory |
| `Heap.KernelHeap.RemoveFromFreeList` | kernel/LineMemory.c:43-55 | the list loses this entry; sizes, flags and rows outside the list are as before |
| `Heap.KernelHeap.AddToFreeList` | kernel/LineMemory.c:57-66 | the list gets this entry at its head |
| `Heap.KernelHeap.TakeBlock` | kernel/LineMemory.c:76-93 | the block is given out, with its rest split off; blocks in use are untouched |
| `Heap.KernelHeap.Kmalloc` | kernel/LineMemory.c:68-99 | NULL exactly when the size is 0 or no free block has room for the size and 16 bytes, rounded up to a multiple of 16, with nothing changed; otherwise the first fit in list order, cut to that many bytes if 32 or more are left over, which become a free block at the front of the list; fewer than 63 bytes more than asked for; blocks in use keep every byte |
| `Heap.KernelHeap.Coalesce` | kernel/LineMemory.c:101-114 | the block is merged with its right neighbour if that is free |
| `Heap.KernelHeap.Kfree` | kernel/LineMemory.c:116-128 | the block goes to the head of the list and is merged to the right; freeing a free block or NULL changes nothing; other blocks in use keep every byte |
| `Heap.KernelHeap.ClientStore` | kernel/LineMemory.c:68-99 | a store into a payload keeps the heap valid |
| `Heap.ClaimsKept` | kernel/LineMemory.c:68-128 | a change of one block leaves every row of the other allocations as it was |
| `Heap.KernelHeap.Serve` | kernel/LineMemory.c:68-128 | one call of a client: an allocation is the first fit, or NULL exactly when the size is 0 or no free block is big enough; a free gives that block back; what the client knows afterwards agrees with memory |
| `Heap.KernelHeap.Run` | kernel/LineMemory.c:26-128 | every run of allocations, frees, stores and loads keeps the heap valid and moves it step by step as specified, with NULL exactly when nothing fits; the live allocations are aligned, inside the heap and disjoint; a row that was stored is read back until it is overwritten or its block is freed |
| `Format.DigitsFit` | third-party/printf.c:281-301 | the digits of a 32-bit number fit into the 32-byte buffer in every base |
| `Format.DigitsDecode` | third-party/printf.c:281-301 | the digits printed decode to the number |
| `Format.FollowsStandard` | third-party/printf.c:227-301 | for every value, width and precision, with `#` and without, the text is that of section 7.19.6.1 of C99 exactly under one condition: that of `Format.HashStandard` for `#` and a value other than 0; otherwise, apart from the octal 0 with `#` and precision 0, that of `Format.PlainStandard` |
| `Format.PlainStandard` | third-party/printf.c:227-301 | for every width and precision, without `#`, the text is that of section 7.19.6.1 of C99 exactly when: with `-`, the precision asks for no zeros; with zeros for the width, the width is at most 32; otherwise sign and precision fit into 32 characters, or the precision alone fills them in a wider field and the sign is a blank that looks like padding |
| `Format.HashStandard` | third-party/printf.c:245-266 | in base 8 and 16 with `#`, a number other than 0 is printed as C99 says exactly when: with a precision and `-`, the precision asks for no zeros beyond the octal prefix; with a precision otherwise, digits and prefix fit into 32 characters, and an octal precision asks for no zeros or for all 32 characters; without a precision, the digits are not as wide as the field, and zeros for the width leave room for the prefix in a field of at most 32 characters |
| `Format.HashOfZero` | third-party/printf.c:284-287 | the number 0 with `#` is printed as C99 says under the conditions without `#`, but never in base 8 with precision 0, where C99 has a digit |
| `Format.OmittedPrecision` | third-party/printf.c:227-301 | the text with precision 0 and the C99 text without a precision are the same exactly for a value other than 0 without zeros to add, with `#` and without |
| `Format.ReadsBack` | third-party/printf.c:227-301 | whatever width, precision and value, without `#` the digits shown decode to the number |
| `Format.SignLost` | third-party/printf.c:227-277 | the sign is lost exactly when zeros for precision or width fill the 32-byte buffer |
| `Directives.FlagsSet` | third-party/printf.c:601-612 | a flag is set exactly when its character occurs, in any order |
| `Directives.AtoiValue` | third-party/printf.c:188-195 | the number read is the decimal value modulo 2 to the 32 |
| `Directives.IntegerReadsBack` | third-party/printf.c:684-756 | every integer conversion without `#` shows digits that decode to the argument |
| `Directives.ParsePrefix` | third-party/printf.c:601-680 | what follows a complete directive does not change how it is read |
| `Directives.SameEnd` | third-party/printf.c:601-680 | where a directive ends does not depend on the arguments |
| `Directives.TextConcat` | third-party/printf.c:577-857 | formatting two strings one after the other is formatting their concatenation, with the arguments shared out |
| `Agreement.ParsesSpecification` | third-party/printf.c:601-680 | every specification that C99 has (flags in any order, width and precision in digits or from arguments, length) is read as it is spelled, whatever follows it |
| `Agreement.ReadsStandard` | third-party/printf.c:601-643 | it is read as C99 says exactly when width and precision are below 2 to the 32 and the precision is not a negative `*` argument; otherwise the source has the numbers modulo 2 to the 32, and the precision 0 where C99 has none |
| `Agreement.IntegerStandard` | third-party/printf.c:684-756 | an integer conversion prints what C99 says, for all flags, widths, precisions, lengths and arguments, exactly under a condition on widths and digit counts; base, argument range and flags are those of C99 |
| `Agreement.StringStandard` | third-party/printf.c:796-820 | `%s` prints what C99 says exactly when the width is below 2 to the 32 or not above what is shown, and the characters that a negative or reduced precision leaves out are blanks within the width |
| `Agreement.CharStandard` | third-party/printf.c:776-794 | `%c` prints the character with the argument's low byte, and blanks on the side that `-` says, exactly when the width is below 2 to the 32 |
| `Agreement.DirectiveStandard` | third-party/printf.c:601-857 | the same for every specification, and the arguments it takes are always those of C99 |
| `Agreement.TextStandard` | third-party/printf.c:577-857 | a format string made of characters, `%%` and specifications that meet these conditions prints the text that C99 says |
| `Agreement.FormatComplete` | third-party/printf.c:577-857 | every such format string can be printed |
| `Agreement.CommonIntegers` | third-party/printf.c:684-756 | without `#`, with a width up to 32, and with no precision or one up to 31 and no `-`, every integer conversion prints what C99 says |
| `Agreement.LongLongSilent` | third-party/printf.c:720-736 | an integer of more than 32 bits prints nothing and takes no argument |
| `Agreement.PointerStandard` | third-party/printf.c:822-840 | `%p` prints what C99 says for `%08X` |
| `Differences.ForgottenZeros` | third-party/printf.c:227-277 | the text of `%-.3d` with 5 is 5, and C99 has 005 |
| `Differences.ForgottenSign` | third-party/printf.c:227-277 | the text of `%040d` with -5 is 31 zeros and 5, and C99 has the sign and 38 zeros |
| `Differences.ForgottenDigits` | third-party/printf.c:245-266 | the text of `%#4x` with 0xABCD is 0xcd, and C99 has 0xabcd |
| `Differences.HiddenZero` | third-party/printf.c:633-643 | the text of `%.*d` with -1 and 0 is empty, and C99 has 0 |
| `Differences.HiddenText` | third-party/printf.c:633-643 | the text of `%.*s` with -1 and any string is empty, and C99 has the string |
| `Printf.OutBuffer` | third-party/printf.c:133-138 | a character is stored at its index exactly below the capacity; the index wraps around at 32 bits |
| `Printf.OutRev` | third-party/printf.c:199-223 | the reversed buffer, padded with blanks |
| `Printf.NtoaFormat` | third-party/printf.c:227-277 | leading zeros, prefix, sign and padding as specified; the 32-byte buffer is never exceeded |
| `Printf.PutDigits` | third-party/printf.c:290-298 | the digit loop computes the reversed digits |
| `Printf.NtoaLong` | third-party/printf.c:281-301 | the text of an integer |
| `Printf.ReadNumber` | third-party/printf.c:188-195 | `_atoi` |
| `Printf.ReadDirective` | third-party/printf.c:601-680 | flags, width, precision and length of a directive |
| `Printf.PrintInteger` | third-party/printf.c:684-756 | the integer conversions |
| `Printf.PrintChar` | third-party/printf.c:776-794 | `%c` |
| `Printf.PrintString` | third-party/printf.c:796-820 | `%s`: at most as many characters as the precision says |
| `Printf.Vsnprintf` | third-party/printf.c:577-857 | the first min(len, n - 1) characters of the unlimited text and a NUL are kept and the rest of the buffer is as before, for every len below 2 to the 32; whatever the length, a NUL lies within the capacity and nothing outside it changes; the result is len as an `int` for every capacity n |

## Left out

- The drive is an array of sectors with total, error-free reads and writes; the floppy driver, DMA, and the thin drive and file system dispatch are not modelled, and neither is a drive error in the middle of an operation (the driver ignores several of these codes).
- The FAT has 12 sectors or more, so that it covers all 4096 cells that a 12-bit link can name. On a volume with a shorter FAT the allocator, which always scans up to cluster 4079, reads past the FAT; that is not modelled. `Geometry.last` is the last cluster that the drive holds; on a smaller volume the cells behind it must not be 0.
- `detect_fat12` is modelled by the geometry it computes; its signature checks and its output are not.
- Fat12.Volume.Open: does not model new names that start with byte 0xE5; `NameOk` excludes them, and `Directory.CreatedLive` shows what happens to them.
- Fat12.Volume.MakeDir: the same exclusion of names that start with byte 0xE5.
- Fat12.Volume.Rename: the same exclusion for the new name; a rename of an open file is allowed and leaves its handles stale, as the `ensures` says.
- Fat12.Volume.Read: requires that the handle agrees with its entry, so what a stale handle reads is not modelled.
- Fat12.Volume.Write: the same; what a stale handle writes is not modelled.
- Fat12.Volume.ListContent: returns the names by value, as the C strings that the caller reads; the ring of 64 shared name buffers and the final NULL name are not modelled.
- `current_cluster` of a handle is stored but never read, as in the driver. Times in directory entries are zeroed or kept as bytes and have no meaning here; long-name entries are skipped, volume labels are ordinary entries.
- Strings passed to the driver are byte sequences without NUL; a handle keeps the first 255 bytes of its path.
- Client.Run: leaves out calls that break the discipline (a second handle on an entry, removal or renaming of an open file, a directory moved below itself).
- Heap.KernelHeap.Kmalloc: does not model a size for which `size + 31` wraps around at 32 bits; `HeapState.NeedFits` says what goes wrong there.
- Heap.KernelHeap.constructor: the end of the memory is a multiple of 16, as the linker script gives it, because `coalesce` compares with the unmasked end.
- Heap.KernelHeap.Kfree: the pointer is NULL or belongs to a block of the heap; other pointers are not modelled.
- Memory is an array of 16-byte rows, so stores of clients are whole rows.
- Printf.Vsnprintf: requires a format without a directive that is cut off by the end of the string (the source reads past the end there).
- The conversion `b` is not part of C99; without `#` it is compared with the rules for `o` in base 2, with `#` it is computed but compared with nothing. Other characters behind a `%` stand for themselves, as in the source.
- Variable arguments are a sequence of words, and a missing one reads as 0; strings are looked up by address. The output functions other than the bounded buffer, floating point and `long long` (both disabled by the build) are not modelled; a `long long` integer conversion prints nothing and takes no argument, as in that build.
- Consoles, interrupt handling, boot code, the random generator and the configuration tools are not part of this model: they are hardware access or would only add easy members.
